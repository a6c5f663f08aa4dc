/** The delivery pipeline: workers that send processed batches, a disk cache for those that
    could not be sent, and a loop that sends cached batches again. All interleavings. */
module Pipeline {
  import opened Prelude
  import opened Runs
  import opened Text
  import opened Numerals
  import opened Plugins

  // ---- Checkpoint offsets ----

  /** The absolute offset a record carries, or else its length. */
  function CheckpointOffset(r: Record): (o: int)
    ensures o >= 0
  {
    if "offset" in r.metadata then
      var parsed := ParseInt64(r.metadata["offset"]);
      if parsed.Some? && parsed.value >= 0 then parsed.value else |r.data|
    else |r.data|
  }

  /** A record is saved up to the offset that its metadata carries as a number that is not
      negative and fits 64 bits, and otherwise up to its length. */
  lemma CheckpointOffsetIs(r: Record)
    ensures forall n: nat {:trigger Numeral(r.metadata["offset"], n)} ::
      "offset" in r.metadata && n <= MAX_INT64 && Numeral(r.metadata["offset"], n) ==> CheckpointOffset(r) == n
    ensures CheckpointOffset(r) == |r.data| ||
      ("offset" in r.metadata && CheckpointOffset(r) <= MAX_INT64
       && Numeral(r.metadata["offset"], CheckpointOffset(r)))
  {
    if "offset" in r.metadata {
      var text := r.metadata["offset"];
      ParsesIff(text, CheckpointOffset(r));
      forall n: nat {:trigger Numeral(text, n)} | n <= MAX_INT64 && Numeral(text, n) ensures CheckpointOffset(r) == n {
        ParsesIff(text, n);
      }
    }
  }

  /** `offset` is the largest one among the batch's records of this source. */
  ghost predicate IsLargest(batch: seq<Record>, source: string, offset: int) {
    && source != ""
    && (exists r :: r in batch && r.source == source && CheckpointOffset(r) == offset)
    && (forall r :: r in batch && r.source == source ==> CheckpointOffset(r) <= offset)
  }

  /** Each source of the batch with its largest offset. */
  ghost predicate IsLatest(batch: seq<Record>, latest: map<string, int>) {
    && (forall r :: r in batch && r.source != "" ==> r.source in latest)
    && (forall s :: s in latest ==> IsLargest(batch, s, latest[s]))
  }

  /** One turn of the loop that collects the offsets. */
  function WithOffset(latest: map<string, int>, r: Record): map<string, int> {
    var o := CheckpointOffset(r);
    if r.source != "" && (r.source !in latest || o > latest[r.source]) then latest[r.source := o] else latest
  }

  function Latest(batch: seq<Record>): map<string, int> {
    if |batch| == 0 then map[] else WithOffset(Latest(batch[..|batch| - 1]), batch[|batch| - 1])
  }

  lemma LatestStep(batch: seq<Record>, r: Record, latest: map<string, int>)
    requires IsLatest(batch, latest)
    ensures IsLatest(batch + [r], WithOffset(latest, r))
  {
    var more := batch + [r];
    assert r in more;
    forall s | s in latest && (s != r.source || CheckpointOffset(r) <= latest[s])
      ensures IsLargest(more, s, latest[s])
    {
      assert IsLargest(batch, s, latest[s]);
      var x :| x in batch && x.source == s && CheckpointOffset(x) == latest[s];
      assert x in more;
    }
    if r.source in latest {
      assert IsLargest(batch, r.source, latest[r.source]);
    }
  }

  /** What the loop collects are the largest offsets. */
  lemma {:induction false} LatestIsLargest(batch: seq<Record>)
    ensures IsLatest(batch, Latest(batch))
  {
    if |batch| > 0 {
      var front := batch[..|batch| - 1];
      LatestIsLargest(front);
      LatestStep(front, batch[|batch| - 1], Latest(front));
      assert batch == front + [batch[|batch| - 1]];
    }
  }

  // ---- The state ----

  datatype Save = Save(source: string, offset: int)

  /** What is saved for a batch when the checkpoint store accepts these sources. */
  function Saves(batch: seq<Record>, accepted: set<string>): set<Save> {
    var latest := Latest(batch);
    set s | s in latest && s in accepted :: Save(s, latest[s])
  }

  /** A cached batch as the replay loop read it. */
  datatype Loaded = Loaded(id: string, batch: nat)

  /** Every batch that passed the plugins, by number; which are with a worker, which were sent,
      the cache files, what the replay loop still has to send and what it has sent and not yet
      removed, and every checkpoint saved. */
  datatype World = World(
    log: seq<seq<Record>>,
    inFlight: set<nat>,
    sent: set<nat>,
    cache: map<string, nat>,
    todo: seq<Loaded>,
    resent: Option<Loaded>,
    saves: set<Save>)

  /** Process: a worker got a batch through the plugins. Send: a worker sent its batch and
      saved its latest offsets, which the store accepts for some sources. Store: a worker gave up and cached its batch.
      Load: the replay loop read cache files. Resend, Remove, Skip: the replay loop sent its
      next batch, removed the file of the one it sent, or left either as it is. */
  datatype Event =
    | Process(records: seq<Record>)
    | Send(n: nat, accepted: set<string>)
    | Store(n: nat, id: string)
    | Load(found: seq<Loaded>)
    | Resend
    | Remove
    | Skip

  ghost predicate Next(w: World, e: Event, w': World) {
    match e
    case Process(records) =>
      w' == w.(log := w.log + [records], inFlight := w.inFlight + {|w.log|})
    case Send(n, accepted) =>
      && n in w.inFlight && n < |w.log|
      && w' == w.(inFlight := w.inFlight - {n}, sent := w.sent + {n}, saves := w.saves + Saves(w.log[n], accepted))
    case Store(n, id) =>
      && n in w.inFlight
      && w' == w.(inFlight := w.inFlight - {n}, cache := w.cache[id := n])
    case Load(found) =>
      && |w.todo| == 0 && w.resent.None?
      && (forall x :: x in found ==> x.id in w.cache && w.cache[x.id] == x.batch)
      && w' == w.(todo := found)
    case Resend =>
      && |w.todo| > 0 && w.resent.None?
      && w' == w.(todo := w.todo[1..], sent := w.sent + {w.todo[0].batch}, resent := Some(w.todo[0]))
    case Remove =>
      && w.resent.Some?
      && w' == w.(cache := w.cache - {w.resent.value.id}, resent := None)
    case Skip =>
      if w.resent.Some? then w' == w.(resent := None)
      else |w.todo| > 0 && w' == w.(todo := w.todo[1..])
  }

  ghost predicate Initial(w: World) {
    && |w.log| == 0 && w.inFlight == {} && w.sent == {} && w.cache == map[]
    && |w.todo| == 0 && w.resent == None && w.saves == {}
  }

  // ---- Conservation ----

  ghost predicate Kept(w: World, n: nat) {
    n in w.inFlight || n in w.sent || exists id :: id in w.cache && w.cache[id] == n
  }

  /** Every batch that passed the plugins is with a worker, sent or cached. */
  ghost predicate Conserved(w: World) {
    forall n: nat {:trigger Kept(w, n)} :: n < |w.log| ==> Kept(w, n)
  }

  /** What the replay loop holds still describes the cache files. */
  predicate Current(w: World, x: Loaded) {
    x.id in w.cache ==> w.cache[x.id] == x.batch
  }

  ghost predicate ReplayOk(w: World) {
    && (forall x :: x in w.todo ==> Current(w, x))
    && (w.resent.Some? ==> Current(w, w.resent.value) && w.resent.value.batch in w.sent)
  }

  predicate InUse(w: World, id: string) {
    || id in w.cache
    || (exists x :: x in w.todo && x.id == id)
    || (w.resent.Some? && w.resent.value.id == id)
  }

  /** A step that stores under an identifier which is not in use. */
  ghost predicate FreshNext(w: World, e: Event, w': World) {
    Next(w, e, w') && (e.Store? ==> !InUse(w, e.id))
  }

  lemma StoreKeeps(w: World, n: nat, id: string, w': World, k: nat)
    requires Next(w, Store(n, id), w') && Kept(w, k) && (id in w.cache ==> w.cache[id] != k || k in w.sent)
    ensures Kept(w', k)
  {
    if k == n {
      assert id in w'.cache && w'.cache[id] == n;
    } else if k !in w.inFlight && k !in w.sent {
      var i :| i in w.cache && w.cache[i] == k;
      assert i in w'.cache && w'.cache[i] == k;
    }
  }

  lemma RemoveKeeps(w: World, w': World, k: nat)
    requires Next(w, Remove, w') && Kept(w, k)
    requires var id := w.resent.value.id; id in w.cache ==> w.cache[id] != k || k in w.sent
    ensures Kept(w', k)
  {
    if k !in w.inFlight && k !in w.sent {
      var i :| i in w.cache && w.cache[i] == k;
      assert i in w'.cache && w'.cache[i] == k;
    }
  }

  lemma OtherKeeps(w: World, e: Event, w': World, k: nat)
    requires Next(w, e, w') && !e.Store? && !e.Remove? && (Kept(w, k) || (e.Process? && k == |w.log|))
    ensures Kept(w', k)
  {
  }

  lemma StepConserves(w: World, e: Event, w': World)
    requires Conserved(w) && ReplayOk(w) && FreshNext(w, e, w')
    ensures Conserved(w')
  {
    forall k: nat | k < |w'.log| ensures Kept(w', k) {
      if k < |w.log| {
        assert Kept(w, k);
      }
      match e
      case Store(n, id) => StoreKeeps(w, n, id, w', k);
      case Remove => RemoveKeeps(w, w', k);
      case Process(_) => OtherKeeps(w, e, w', k);
      case Send(_, _) => OtherKeeps(w, e, w', k);
      case Load(_) => OtherKeeps(w, e, w', k);
      case Resend => OtherKeeps(w, e, w', k);
      case Skip => OtherKeeps(w, e, w', k);
    }
  }

  lemma StepReplayOk(w: World, e: Event, w': World)
    requires ReplayOk(w) && FreshNext(w, e, w')
    ensures ReplayOk(w')
  {
    if e.Resend? || (e.Skip? && w.resent.None?) {
      assert w.todo[0] in w.todo;
      assert forall x :: x in w'.todo ==> x in w.todo;
    }
  }

  // ---- Checkpoints ----

  ghost predicate Justified(w: World, s: Save) {
    exists n :: n in w.sent && n < |w.log| && IsLargest(w.log[n], s.source, s.offset)
  }

  /** Every saved checkpoint is the largest offset of some batch that was sent. */
  ghost predicate SavesJustified(w: World) {
    forall s :: s in w.saves ==> Justified(w, s)
  }

  lemma StepJustifies(w: World, e: Event, w': World)
    requires SavesJustified(w) && Next(w, e, w')
    ensures SavesJustified(w')
  {
    forall s | s in w'.saves ensures Justified(w', s) {
      if s in w.saves {
        assert Justified(w, s);
        var n :| n in w.sent && n < |w.log| && IsLargest(w.log[n], s.source, s.offset);
        assert w'.log[n] == w.log[n];
      } else {
        LatestIsLargest(w.log[e.n]);
        assert e.n in w'.sent && IsLargest(w'.log[e.n], s.source, s.offset);
      }
    }
  }

  // ---- Whole runs ----

  ghost predicate Run(ws: seq<World>, es: seq<Event>) {
    Steps(FreshNext, ws, es) && Initial(ws[0])
  }

  ghost predicate Good(w: World) {
    Conserved(w) && ReplayOk(w) && SavesJustified(w)
  }

  /** In every interleaving with fresh identifiers, no batch is lost and every checkpoint is
      justified by a batch that was sent. */
  lemma NothingIsLost(ws: seq<World>, es: seq<Event>)
    requires Run(ws, es)
    ensures forall i :: 0 <= i < |ws| ==> Conserved(ws[i]) && SavesJustified(ws[i])
  {
    forall w, e, w' | Good(w) && FreshNext(w, e, w') ensures Good(w') {
      StepConserves(w, e, w');
      StepReplayOk(w, e, w');
      StepJustifies(w, e, w');
    }
    Invariant(FreshNext, ws, es, Good);
    assert forall i :: 0 <= i < |ws| ==> Good(ws[i]);
  }

  /** The cache files of `a` are still there in `b`, but for those whose batches were sent. */
  ghost predicate FilesUntilSent(a: World, b: World) {
    && a.sent <= b.sent
    && forall id :: id in a.cache ==> (id in b.cache && b.cache[id] == a.cache[id]) || a.cache[id] in b.sent
  }

  lemma StepFiles(w: World, e: Event, w': World)
    requires ReplayOk(w) && FreshNext(w, e, w')
    ensures FilesUntilSent(w, w')
  {
  }

  /** In every such run a cache file disappears or is replaced only after its batch was sent. */
  lemma FilesStayUntilSent(ws: seq<World>, es: seq<Event>)
    requires Run(ws, es)
    ensures forall i, j :: 0 <= i <= j < |ws| ==> FilesUntilSent(ws[i], ws[j])
  {
    forall w, e, w' | ReplayOk(w) && FreshNext(w, e, w') ensures ReplayOk(w') {
      StepReplayOk(w, e, w');
    }
    Invariant(FreshNext, ws, es, ReplayOk);
    forall i | 0 <= i < |es| ensures FilesUntilSent(ws[i], ws[i + 1]) {
      assert FreshNext(ws[i], es[i], ws[i + 1]);
      StepFiles(ws[i], es[i], ws[i + 1]);
    }
    Monotone(FreshNext, ws, es, FilesUntilSent);
  }

  // ---- When identifiers are not fresh ----

  /** Each batch is with one worker or in one cache file. Holds whatever the identifiers. */
  ghost predicate Placed(w: World) {
    && (forall n :: n in w.inFlight ==> n < |w.log|)
    && (forall i :: i in w.cache ==> w.cache[i] < |w.log| && w.cache[i] !in w.inFlight)
    && (forall i, j :: i in w.cache && j in w.cache && w.cache[i] == w.cache[j] ==> i == j)
  }

  lemma PlacedAlways(ws: seq<World>, es: seq<Event>)
    requires Steps(Next, ws, es) && Initial(ws[0])
    ensures forall i :: 0 <= i < |ws| ==> Placed(ws[i])
  {
    forall w, e, w' | Placed(w) && Next(w, e, w') ensures Placed(w') {
    }
    Invariant(Next, ws, es, Placed);
  }

  /** Exactly when storing a batch loses another one: when its identifier is that of a cached
      batch which was not sent. */
  lemma StoreLosesIff(w: World, n: nat, id: string, w': World)
    requires Placed(w) && Conserved(w) && Next(w, Store(n, id), w')
    ensures Conserved(w') <==> (id in w.cache ==> w.cache[id] in w.sent)
  {
    if id in w.cache && w.cache[id] !in w.sent {
      assert !Kept(w', w.cache[id]);
    } else {
      forall k: nat | k < |w'.log| ensures Kept(w', k) {
        assert Kept(w, k);
        StoreKeeps(w, n, id, w', k);
      }
    }
  }

  /** Exactly when removing the file of a batch that was sent loses another one: when the file
      now holds a batch which was not. */
  lemma RemoveLosesIff(w: World, w': World)
    requires Placed(w) && Conserved(w) && Next(w, Remove, w')
    ensures var id := w.resent.value.id;
      Conserved(w') <==> (id in w.cache ==> w.cache[id] in w.sent)
  {
    var id := w.resent.value.id;
    if id in w.cache && w.cache[id] !in w.sent {
      assert !Kept(w', w.cache[id]);
    } else {
      forall k: nat | k < |w'.log| ensures Kept(w', k) {
        assert Kept(w, k);
        RemoveKeeps(w, w', k);
      }
    }
  }

  lemma OneAfterOther(w: World, e: Event, w': World, ws: seq<World>, es: seq<Event>)
    requires Steps(Next, ws, es) && w == ws[|es|] && Next(w, e, w')
    ensures Steps(Next, ws + [w'], es + [e]) && (ws + [w'])[0] == ws[0]
  {
    StepsSnoc(Next, ws, es, e, w');
  }

  /** Two batches are with workers. */
  lemma TwoInFlight(a: seq<Record>, b: seq<Record>) returns (ws: seq<World>, es: seq<Event>)
    ensures Steps(Next, ws, es) && Initial(ws[0])
    ensures ws[|es|] == World([a, b], {0, 1}, {}, map[], [], None, {})
  {
    var w0 := World([], {}, {}, map[], [], None, {});
    var w1 := World([a], {0}, {}, map[], [], None, {});
    var w2 := World([a, b], {0, 1}, {}, map[], [], None, {});
    ws, es := [w0, w1, w2], [Process(a), Process(b)];
    assert Next(w0, Process(a), w1) && Next(w1, Process(b), w2);
  }

  /** Where storing loses a batch: two workers give up and draw one identifier. */
  lemma StoreLoses(a: seq<Record>, b: seq<Record>, id: string) returns (ws: seq<World>, es: seq<Event>)
    ensures Steps(Next, ws, es) && Initial(ws[0]) && !Conserved(ws[|es|])
  {
    ws, es := TwoInFlight(a, b);
    var w3 := ws[|es|].(inFlight := {1}, cache := map[id := 0]);
    OneAfterOther(ws[|es|], Store(0, id), w3, ws, es);
    ws, es := ws + [w3], es + [Store(0, id)];
    var w4 := w3.(inFlight := {}, cache := map[id := 1]);
    OneAfterOther(w3, Store(1, id), w4, ws, es);
    ws, es := ws + [w4], es + [Store(1, id)];
    assert !Kept(w4, 0);
  }

  /** Where removing loses one: while a batch is sent again, another worker gives up and draws
      its identifier. */
  lemma RemoveLoses(a: seq<Record>, b: seq<Record>, id: string) returns (ws: seq<World>, es: seq<Event>)
    ensures Steps(Next, ws, es) && Initial(ws[0]) && !Conserved(ws[|es|])
  {
    ws, es := TwoInFlight(a, b);
    var x := Loaded(id, 0);
    var w3 := World([a, b], {1}, {}, map[id := 0], [], None, {});
    OneAfterOther(ws[|es|], Store(0, id), w3, ws, es);
    ws, es := ws + [w3], es + [Store(0, id)];
    var w4 := w3.(todo := [x]);
    OneAfterOther(w3, Load([x]), w4, ws, es);
    ws, es := ws + [w4], es + [Load([x])];
    var w5 := w4.(todo := [], sent := {0}, resent := Some(x));
    OneAfterOther(w4, Resend, w5, ws, es);
    ws, es := ws + [w5], es + [Resend];
    var w6 := w5.(inFlight := {}, cache := map[id := 1]);
    OneAfterOther(w5, Store(1, id), w6, ws, es);
    ws, es := ws + [w6], es + [Store(1, id)];
    var w7 := w6.(cache := map[], resent := None);
    OneAfterOther(w6, Remove, w7, ws, es);
    ws, es := ws + [w7], es + [Remove];
    assert !Kept(w7, 1);
  }
}

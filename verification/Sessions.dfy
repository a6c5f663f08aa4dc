/** The refresh-session table of the auth repository: one row per refresh token, rows of one
    login linked into a family by rotation, and the statements that insert and revoke rows.
    A transaction is one atomic step on the table. */
module Sessions {
  import opened Prelude
  import opened Runs

  type Id = string

  datatype Status = Active | Revoked | Expired

  datatype Row = Row(
    tenant: string, user: string, tokenHash: string, family: Id, status: Status,
    replacedBy: Option<Id>, createdAt: int, expiresAt: int)

  type Table = map<Id, Row>

  /** The table's key and its unique index on refresh_token_hash. */
  ghost predicate UniqueHashes(t: Table) {
    forall i, j :: i in t && j in t && t[i].tokenHash == t[j].tokenHash ==> i == j
  }

  predicate Conflicts(t: Table, id: Id, tokenHash: string) {
    id in t || exists i :: i in t && t[i].tokenHash == tokenHash
  }

  /** The WHERE clause of an UPDATE that revokes rows. */
  datatype Scope =
    | ByToken(tenant: string, tokenHash: string)
    | ByUser(tenant: string, user: string)
    | ByFamily(tenant: string, family: Id)

  predicate Covers(s: Scope, r: Row) {
    && r.tenant == s.tenant
    && match s
       case ByToken(_, h) => r.tokenHash == h
       case ByUser(_, u) => r.user == u
       case ByFamily(_, f) => r.family == f
  }

  function RevokeIn(s: Scope, r: Row): Row {
    if r.status.Active? && Covers(s, r) then r.(status := Revoked) else r
  }

  function Revoke(t: Table, s: Scope): (r: Table) {
    map id | id in t :: RevokeIn(s, t[id])
  }

  datatype Event =
    | Create(id: Id, tenant: string, user: string, tokenHash: string, at: int, expiresAt: int)
    | Rotate(tenant: string, tokenHash: string, newId: Id, newHash: string, now: int, at: int,
             activeUsers: set<(string, string)>)
    | Logout(tenant: string, tokenHash: string)
    | RevokeUser(tenant: string, user: string)

  datatype Outcome = Done | Rotated(user: string) | InvalidToken | TokenConflict | BadTtl

  ghost predicate Finds(t: Table, tenant: string, tokenHash: string, id: Id) {
    id in t && t[id].tenant == tenant && t[id].tokenHash == tokenHash
  }

  /** The row the rotation locks: that of the token, if its user is active. */
  ghost predicate Locks(t: Table, e: Event, id: Id)
    requires e.Rotate?
  {
    Finds(t, e.tenant, e.tokenHash, id) && (e.tenant, t[id].user) in e.activeUsers
  }

  /** Replaces the row `id` by a new one of the same family. `at` is the database's clock. */
  function Replace(t: Table, id: Id, e: Event): Table
    requires e.Rotate? && id in t
  {
    var row := t[id];
    t[e.newId := Row(row.tenant, row.user, e.newHash, row.family, Active, None, e.at,
                     e.now + (row.expiresAt - row.createdAt))]
     [id := row.(status := Revoked, replacedBy := Some(e.newId))]
  }

  /** Rotation of the token of row `id`. */
  function RotateRow(t: Table, id: Id, e: Event): (Table, Outcome)
    requires e.Rotate? && id in t
  {
    var row := t[id];
    if !row.status.Active? || row.expiresAt < e.now then
      (if row.status.Revoked? && row.replacedBy.Some? then Revoke(t, ByFamily(e.tenant, row.family)) else t,
       InvalidToken)
    else if row.expiresAt <= row.createdAt then (t, BadTtl)
    else if Conflicts(t, e.newId, e.newHash) then (t, TokenConflict)
    else (Replace(t, id, e), Rotated(row.user))
  }

  function CreateRow(t: Table, e: Event): (Table, Outcome)
    requires e.Create?
  {
    if Conflicts(t, e.id, e.tokenHash) then (t, TokenConflict)
    else (t[e.id := Row(e.tenant, e.user, e.tokenHash, e.id, Active, None, e.at, e.expiresAt)], Done)
  }

  ghost predicate Effect(t: Table, e: Event, t': Table, out: Outcome) {
    match e
    case Create(_, _, _, _, _, _) => (t', out) == CreateRow(t, e)
    case Rotate(_, _, _, _, _, _, _) =>
      || (exists id :: Locks(t, e, id) && (t', out) == RotateRow(t, id, e))
      || ((forall id :: !Locks(t, e, id)) && t' == t && out == InvalidToken)
    case Logout(tenant, h) =>
      && t' == Revoke(t, ByToken(tenant, h))
      && (out == Done <==> exists id :: Finds(t, tenant, h, id) && t[id].status.Active?)
      && (out != Done ==> out == InvalidToken)
    case RevokeUser(tenant, user) => t' == Revoke(t, ByUser(tenant, user)) && out == Done
  }

  // ---- Families ----

  ghost predicate LinkAt(t: Table, chain: seq<Id>, i: nat)
    requires i < |chain|
  {
    && chain[i] in t && chain[0] in t
    && var r := t[chain[i]];
    && r.tenant == t[chain[0]].tenant && r.user == t[chain[0]].user
    && (if i + 1 < |chain| then r.replacedBy == Some(chain[i + 1]) && r.status.Revoked? else r.replacedBy == None)
  }

  /** `chain` lists the rows of the family: the first carries the family's id, each is replaced
      by the next and revoked, and the last is not replaced. */
  ghost predicate Linked(t: Table, f: Id, chain: seq<Id>) {
    && chain != [] && chain[0] == f
    && (forall i, j :: 0 <= i < j < |chain| ==> chain[i] != chain[j])
    && (forall id :: id in t && t[id].family == f <==> id in chain)
    && (forall i {:trigger LinkAt(t, chain, i)} :: 0 <= i < |chain| ==> LinkAt(t, chain, i))
  }

  /** The table and, per family, the chain built so far. */
  datatype World = World(table: Table, chains: map<Id, seq<Id>>)

  ghost predicate Sound(w: World) {
    && (forall id :: id in w.table ==> w.table[id].family in w.chains)
    && (forall f :: f in w.chains ==> Linked(w.table, f, w.chains[f]))
  }

  datatype Step = Step(event: Event, outcome: Outcome)

  function Chain(chains: map<Id, seq<Id>>, f: Id): seq<Id> {
    if f in chains then chains[f] else []
  }

  function Family(t: Table, id: Id): Id {
    if id in t then t[id].family else id
  }

  ghost predicate Next(w: World, s: Step, w': World) {
    && Effect(w.table, s.event, w'.table, s.outcome)
    && w'.chains ==
       if s.event.Rotate? && s.outcome.Rotated? then
         var f := Family(w'.table, s.event.newId);
         w.chains[f := Chain(w.chains, f) + [s.event.newId]]
       else if s.event.Create? && s.outcome == Done then w.chains[s.event.id := [s.event.id]]
       else w.chains
  }

  // ---- Each statement keeps the families ----

  lemma RevokeKeepsLinked(t: Table, s: Scope, f: Id, chain: seq<Id>)
    requires Linked(t, f, chain)
    ensures Linked(Revoke(t, s), f, chain)
  {
    var t' := Revoke(t, s);
    forall i | 0 <= i < |chain| ensures LinkAt(t', chain, i) {
      assert LinkAt(t, chain, i) && LinkAt(t, chain, 0);
    }
  }

  lemma RevokeKeepsSound(w: World, s: Scope, w': World)
    requires Sound(w) && w' == w.(table := Revoke(w.table, s))
    ensures Sound(w')
  {
    forall f | f in w'.chains ensures Linked(w'.table, f, w'.chains[f]) {
      RevokeKeepsLinked(w.table, s, f, w.chains[f]);
    }
  }

  /** An id that is not in the table is not a family either. */
  lemma NoRowsYet(w: World, f: Id)
    requires Sound(w) && f !in w.table
    ensures forall id :: id in w.table ==> w.table[id].family != f
  {
    forall id | id in w.table ensures w.table[id].family != f {
      assert Linked(w.table, w.table[id].family, w.chains[w.table[id].family]);
    }
  }

  /** A family is untouched by inserting a row of another one. */
  lemma OtherLinked(t: Table, t': Table, f: Id, chain: seq<Id>, newId: Id)
    requires Linked(t, f, chain) && newId !in t && t'.Keys == t.Keys + {newId} && t'[newId].family != f
    requires forall id :: id in t && t[id].family == f ==> t'[id] == t[id]
    requires forall id :: id in t ==> t'[id].family == t[id].family
    ensures Linked(t', f, chain)
  {
    forall i | 0 <= i < |chain| ensures LinkAt(t', chain, i) {
      assert LinkAt(t, chain, i) && chain[i] in chain && chain[0] in chain;
    }
  }

  lemma CreateKeepsSound(w: World, e: Event, w': World)
    requires Sound(w) && e.Create? && !Conflicts(w.table, e.id, e.tokenHash)
    requires w'.table == CreateRow(w.table, e).0 && w'.chains == w.chains[e.id := [e.id]]
    ensures Sound(w')
  {
    forall f | f in w'.chains ensures Linked(w'.table, f, w'.chains[f]) {
      if f == e.id {
        NoRowsYet(w, f);
      } else {
        OtherLinked(w.table, w'.table, f, w.chains[f], e.id);
      }
    }
  }

  /** Replacing an active row extends its family's chain: an active row is always the last. */
  lemma ReplaceExtends(t: Table, id: Id, e: Event, chain: seq<Id>)
    requires e.Rotate? && id in t && t[id].status.Active? && !Conflicts(t, e.newId, e.newHash)
    requires Linked(t, t[id].family, chain)
    ensures chain[|chain| - 1] == id
    ensures Linked(Replace(t, id, e), t[id].family, chain + [e.newId])
  {
    var t', chain', n := Replace(t, id, e), chain + [e.newId], |chain|;
    assert id in chain;
    var k :| 0 <= k < n && chain[k] == id;
    assert LinkAt(t, chain, k);
    assert e.newId !in chain;
    forall i | 0 <= i < |chain'| ensures LinkAt(t', chain', i) {
      if i < n {
        assert LinkAt(t, chain, i) && chain[i] in chain && chain[0] in chain;
      }
    }
  }

  lemma RotateKeepsSound(w: World, id: Id, e: Event, w': World)
    requires Sound(w) && e.Rotate? && id in w.table && w.table[id].status.Active?
    requires !Conflicts(w.table, e.newId, e.newHash) && w'.table == Replace(w.table, id, e)
    requires var f := w.table[id].family; w'.chains == w.chains[f := Chain(w.chains, f) + [e.newId]]
    ensures Sound(w')
  {
    var f0 := w.table[id].family;
    ReplaceExtends(w.table, id, e, w.chains[f0]);
    forall f | f in w'.chains ensures Linked(w'.table, f, w'.chains[f]) {
      if f != f0 {
        OtherLinked(w.table, w'.table, f, w.chains[f], e.newId);
      }
    }
  }

  /** What a step can do to the table: revoke some rows (or nothing), insert the first row of a
      family, or replace an active row. */
  ghost predicate Revokes(w: World, s: Scope, w': World) {
    w' == w.(table := Revoke(w.table, s))
  }

  ghost predicate Creates(w: World, e: Event, w': World) {
    && e.Create? && !Conflicts(w.table, e.id, e.tokenHash)
    && w' == World(CreateRow(w.table, e).0, w.chains[e.id := [e.id]])
  }

  ghost predicate Replaces(w: World, id: Id, e: Event, w': World) {
    && e.Rotate? && Locks(w.table, e, id) && w.table[id].status.Active?
    && !Conflicts(w.table, e.newId, e.newHash)
    && var f := w.table[id].family;
       w' == World(Replace(w.table, id, e), w.chains[f := Chain(w.chains, f) + [e.newId]])
  }

  ghost predicate Changes(w: World, s: Step, w': World) {
    || w' == w
    || (exists scope :: Revokes(w, scope, w'))
    || (Creates(w, s.event, w') && s.outcome == Done)
    || (s.outcome.Rotated? && exists id :: Replaces(w, id, s.event, w'))
  }

  lemma RotateChanges(w: World, s: Step, w': World, id: Id)
    requires Next(w, s, w') && s.event.Rotate?
    requires Locks(w.table, s.event, id) && (w'.table, s.outcome) == RotateRow(w.table, id, s.event)
    ensures s.outcome.Rotated? ==> Replaces(w, id, s.event, w')
    ensures !s.outcome.Rotated? ==> w' == w || Revokes(w, ByFamily(s.event.tenant, w.table[id].family), w')
  {
  }

  lemma StepChanges(w: World, s: Step, w': World)
    requires Next(w, s, w')
    ensures Changes(w, s, w')
    ensures s.event.Rotate? && s.outcome.Rotated? ==> exists id :: Replaces(w, id, s.event, w')
  {
    var e := s.event;
    match e
    case Create(_, _, _, _, _, _) =>
    case Rotate(_, _, _, _, _, _, _) =>
      if id :| Locks(w.table, e, id) && (w'.table, s.outcome) == RotateRow(w.table, id, e) {
        RotateChanges(w, s, w', id);
      }
    case Logout(tenant, h) => assert Revokes(w, ByToken(tenant, h), w');
    case RevokeUser(tenant, user) => assert Revokes(w, ByUser(tenant, user), w');
  }

  lemma StepKeepsSound(w: World, s: Step, w': World)
    requires Sound(w) && Next(w, s, w')
    ensures Sound(w')
  {
    StepChanges(w, s, w');
    if scope :| Revokes(w, scope, w') {
      RevokeKeepsSound(w, scope, w');
    } else if Creates(w, s.event, w') {
      CreateKeepsSound(w, s.event, w');
    } else if id :| Replaces(w, id, s.event, w') {
      RotateKeepsSound(w, id, s.event, w');
    }
  }

  ghost predicate Run(ws: seq<World>, ss: seq<Step>) {
    Steps(Next, ws, ss) && ws[0] == World(map[], map[])
  }

  /** In every reachable table each family is one chain, in the order its rows were issued. */
  lemma FamiliesAreChains(ws: seq<World>, ss: seq<Step>)
    requires Run(ws, ss)
    ensures forall i :: 0 <= i < |ws| ==> Sound(ws[i])
  {
    forall w, s, w' | Sound(w) && Next(w, s, w') ensures Sound(w') {
      StepKeepsSound(w, s, w');
    }
    Invariant(Next, ws, ss, Sound);
  }

  /** A family has at most one active row, the last of its chain. */
  lemma OneLiveHead(w: World, a: Id, b: Id)
    requires Sound(w) && a in w.table && b in w.table && w.table[a].family == w.table[b].family
    requires w.table[a].status.Active? && w.table[b].status.Active?
    ensures a == b && a == w.chains[w.table[a].family][|w.chains[w.table[a].family]| - 1]
  {
    var chain := w.chains[w.table[a].family];
    assert Linked(w.table, w.table[a].family, chain) && a in chain && b in chain;
    var i, j :| 0 <= i < |chain| && chain[i] == a && 0 <= j < |chain| && chain[j] == b;
    assert LinkAt(w.table, chain, i) && LinkAt(w.table, chain, j);
  }

  // ---- What never comes back ----

  ghost predicate Dead(t: Table, f: Id) {
    forall id :: id in t && t[id].family == f ==> !t[id].status.Active?
  }

  /** A family of the table without an active row. */
  ghost predicate DeadFamily(w: World, f: Id) {
    Sound(w) && f in w.chains && Dead(w.table, f)
  }

  lemma DeadStaysDead(w: World, s: Step, w': World, f: Id)
    requires Dead(w.table, f) && f in w.table && f in w.chains && Next(w, s, w')
    ensures Dead(w'.table, f) && f in w'.chains
  {
    StepChanges(w, s, w');
    if Creates(w, s.event, w') {
      assert s.event.id != f;
    } else if id :| Replaces(w, id, s.event, w') {
      assert w.table[id].family != f;
    }
  }

  lemma FirstRowExists(w: World, f: Id)
    requires Sound(w) && f in w.chains
    ensures f in w.table
  {
    assert Linked(w.table, f, w.chains[f]) && f in w.chains[f];
  }

  lemma StepKeepsDead(w: World, s: Step, w': World, f: Id)
    requires DeadFamily(w, f) && Next(w, s, w')
    ensures DeadFamily(w', f)
  {
    StepKeepsSound(w, s, w');
    FirstRowExists(w, f);
    DeadStaysDead(w, s, w', f);
  }

  /** A family that has lost its active row never has one again. */
  lemma DeadFamiliesStayDead(ws: seq<World>, ss: seq<Step>, f: Id)
    requires Steps(Next, ws, ss) && DeadFamily(ws[0], f)
    ensures forall i :: 0 <= i < |ws| ==> Dead(ws[i].table, f)
  {
    forall w, s, w' | DeadFamily(w, f) && Next(w, s, w') ensures DeadFamily(w', f) {
      StepKeepsDead(w, s, w', f);
    }
    Invariant(Next, ws, ss, w => DeadFamily(w, f));
    assert forall i :: 0 <= i < |ws| ==> (w => DeadFamily(w, f))(ws[i]);
  }

  lemma ReplacedIsRevoked(w: World, id: Id)
    requires Sound(w) && id in w.table && w.table[id].replacedBy.Some?
    ensures w.table[id].status.Revoked?
  {
    var chain := w.chains[w.table[id].family];
    assert Linked(w.table, w.table[id].family, chain) && id in chain;
    var k :| 0 <= k < |chain| && chain[k] == id;
    assert LinkAt(w.table, chain, k);
  }

  lemma RevokedIsDead(t: Table, tenant: string, f: Id)
    requires forall j :: j in t && t[j].family == f ==> t[j].tenant == tenant
    ensures Dead(Revoke(t, ByFamily(tenant, f)), f)
  {
  }

  lemma SameTenant(w: World, id: Id)
    requires Sound(w) && id in w.table
    ensures forall j :: j in w.table && w.table[j].family == w.table[id].family ==>
      w.table[j].tenant == w.table[id].tenant && w.table[j].user == w.table[id].user
  {
    var chain := w.chains[w.table[id].family];
    assert Linked(w.table, w.table[id].family, chain);
    forall j | j in w.table && w.table[j].family == w.table[id].family
      ensures w.table[j].tenant == w.table[id].tenant && w.table[j].user == w.table[id].user
    {
      assert j in chain && id in chain;
      var a, b :| 0 <= a < |chain| && chain[a] == j && 0 <= b < |chain| && chain[b] == id;
      assert LinkAt(w.table, chain, a) && LinkAt(w.table, chain, b);
    }
  }

  /** Rotating with a token that was already replaced fails, and leaves its family without an
      active row exactly when the user is active, or it had none before. */
  lemma ReplayRevokesFamily(w: World, s: Step, w': World, id: Id)
    requires Sound(w) && UniqueHashes(w.table) && Next(w, s, w') && s.event.Rotate?
    requires Finds(w.table, s.event.tenant, s.event.tokenHash, id) && w.table[id].replacedBy.Some?
    ensures s.outcome == InvalidToken
    ensures Dead(w'.table, w.table[id].family) <==>
      (s.event.tenant, w.table[id].user) in s.event.activeUsers || Dead(w.table, w.table[id].family)
  {
    var f := w.table[id].family;
    ReplacedIsRevoked(w, id);
    SameTenant(w, id);
    assert forall i :: Finds(w.table, s.event.tenant, s.event.tokenHash, i) ==> i == id;
    if Locks(w.table, s.event, id) {
      assert w'.table == Revoke(w.table, ByFamily(s.event.tenant, f));
      RevokedIsDead(w.table, s.event.tenant, f);
    }
  }

  // ---- A token works once ----

  lemma RevokeKeepsUnique(t: Table, s: Scope)
    requires UniqueHashes(t)
    ensures UniqueHashes(Revoke(t, s))
  {
  }

  lemma InsertKeepsUnique(t: Table, id: Id, hash: string, t': Table)
    requires UniqueHashes(t) && !Conflicts(t, id, hash)
    requires t'.Keys == t.Keys + {id} && t'[id].tokenHash == hash
    requires forall i :: i in t ==> t'[i].tokenHash == t[i].tokenHash
    ensures UniqueHashes(t')
  {
  }

  lemma StepKeepsUnique(w: World, s: Step, w': World)
    requires UniqueHashes(w.table) && Next(w, s, w')
    ensures UniqueHashes(w'.table)
  {
    StepChanges(w, s, w');
    if scope :| Revokes(w, scope, w') {
      RevokeKeepsUnique(w.table, scope);
    } else if Creates(w, s.event, w') {
      InsertKeepsUnique(w.table, s.event.id, s.event.tokenHash, w'.table);
    } else if id :| Replaces(w, id, s.event, w') {
      InsertKeepsUnique(w.table, s.event.newId, s.event.newHash, w'.table);
    }
  }

  /** Rows stay, keep their token, and once not active are never active again. */
  ghost predicate RowsKept(t: Table, t': Table) {
    forall id :: id in t ==>
      id in t' && t'[id].tokenHash == t[id].tokenHash && (t'[id].status.Active? ==> t[id].status.Active?)
  }

  lemma StepKeepsRows(w: World, s: Step, w': World)
    requires Next(w, s, w')
    ensures RowsKept(w.table, w'.table)
  {
    StepChanges(w, s, w');
  }

  ghost predicate Retired(t: Table, hash: string) {
    UniqueHashes(t) && exists id :: id in t && t[id].tokenHash == hash && !t[id].status.Active?
  }

  lemma RotationRetires(w: World, s: Step, w': World)
    requires UniqueHashes(w.table) && Next(w, s, w') && s.event.Rotate? && s.outcome.Rotated?
    ensures Retired(w'.table, s.event.tokenHash) && !Retired(w.table, s.event.tokenHash)
  {
    StepKeepsUnique(w, s, w');
    StepChanges(w, s, w');
    var id :| Replaces(w, id, s.event, w');
    assert id in w'.table && w'.table[id].tokenHash == s.event.tokenHash && !w'.table[id].status.Active?;
  }

  lemma StepKeepsRetired(w: World, s: Step, w': World, hash: string)
    requires Retired(w.table, hash) && Next(w, s, w')
    ensures Retired(w'.table, hash)
  {
    StepKeepsUnique(w, s, w');
    StepKeepsRows(w, s, w');
    var id :| id in w.table && w.table[id].tokenHash == hash && !w.table[id].status.Active?;
    assert id in w'.table;
  }

  lemma RetiredLater(ws: seq<World>, ss: seq<Step>, hash: string)
    requires Steps(Next, ws, ss) && Retired(ws[0].table, hash)
    ensures forall i :: 0 <= i < |ws| ==> Retired(ws[i].table, hash)
  {
    forall w: World, s, w': World | Retired(w.table, hash) && Next(w, s, w') ensures Retired(w'.table, hash) {
      StepKeepsRetired(w, s, w', hash);
    }
    var retired := (w: World) => Retired(w.table, hash);
    Invariant(Next, ws, ss, retired);
    assert forall i :: 0 <= i < |ws| ==> retired(ws[i]);
  }

  /** Over a whole run no refresh token is exchanged successfully twice. */
  lemma TokensRotateOnce(ws: seq<World>, ss: seq<Step>, i: nat, j: nat)
    requires Run(ws, ss) && i < j < |ss|
    requires ss[i].event.Rotate? && ss[i].outcome.Rotated? && ss[j].event.Rotate? && ss[j].outcome.Rotated?
    ensures ss[i].event.tokenHash != ss[j].event.tokenHash
  {
    forall w: World, s, w': World | UniqueHashes(w.table) && Next(w, s, w') ensures UniqueHashes(w'.table) {
      StepKeepsUnique(w, s, w');
    }
    var unique := (w: World) => UniqueHashes(w.table);
    Invariant(Next, ws, ss, unique);
    assert unique(ws[i]) && unique(ws[j]);
    var hash := ss[i].event.tokenHash;
    RotationRetires(ws[i], ss[i], ws[i + 1]);
    RotationRetires(ws[j], ss[j], ws[j + 1]);
    RetiredLater(ws[i + 1..], ss[i + 1..], hash);
    assert Retired(ws[i + 1..][j - i - 1].table, hash);
  }

  /** A rotation is granted exactly to the active, unexpired token of an active user, with a
      positive lifetime and an unused successor; the successor is then the family's active row
      and expires the original lifetime after now. */
  lemma RotationGrantedIff(w: World, s: Step, w': World, id: Id)
    requires Sound(w) && UniqueHashes(w.table) && Next(w, s, w') && s.event.Rotate?
    requires Finds(w.table, s.event.tenant, s.event.tokenHash, id)
    ensures var e, row := s.event, w.table[id];
      && (s.outcome.Rotated? <==>
           && (e.tenant, row.user) in e.activeUsers && row.status.Active? && e.now <= row.expiresAt
           && row.createdAt < row.expiresAt && !Conflicts(w.table, e.newId, e.newHash))
      && (s.outcome.Rotated? ==>
           && s.outcome.user == row.user && e.newId in w'.table
           && w'.table[e.newId].status.Active? && w'.table[e.newId].family == row.family
           && w'.table[e.newId].expiresAt - e.now == row.expiresAt - row.createdAt
           && w'.table[id].replacedBy == Some(e.newId) && !w'.table[id].status.Active?)
  {
    assert forall i :: Finds(w.table, s.event.tenant, s.event.tokenHash, i) ==> i == id;
    if Locks(w.table, s.event, id) {
      assert (w'.table, s.outcome) == RotateRow(w.table, id, s.event);
    }
  }

  // ---- What each statement does to the rows ----

  /** The same row, revoked if it was active and is one of those. */
  predicate RevokedIf(r: Row, r': Row, those: bool) {
    if those && r.status.Active? then
      && r'.status.Revoked? && r'.tenant == r.tenant && r'.user == r.user && r'.tokenHash == r.tokenHash
      && r'.family == r.family && r'.replacedBy == r.replacedBy
      && r'.createdAt == r.createdAt && r'.expiresAt == r.expiresAt
    else r' == r
  }

  predicate Owned(r: Row, tenant: string, tokenHash: string) {
    r.tenant == tenant && r.tokenHash == tokenHash
  }

  /** A logout revokes the active row of its token and leaves all others as they are, and is
      done exactly when there is one. */
  lemma LogoutIsExact(w: World, s: Step, w': World)
    requires Next(w, s, w') && s.event.Logout?
    ensures w'.table.Keys == w.table.Keys && w'.chains == w.chains
    ensures forall id :: id in w.table ==>
      RevokedIf(w.table[id], w'.table[id], Owned(w.table[id], s.event.tenant, s.event.tokenHash))
    ensures s.outcome == if exists id :: id in w.table && w.table[id].status.Active?
                                         && Owned(w.table[id], s.event.tenant, s.event.tokenHash)
                         then Done else InvalidToken
  {
  }

  /** Revoking a user leaves no active row of theirs, and all other rows as they are. */
  lemma RevokeUserIsExact(w: World, s: Step, w': World)
    requires Next(w, s, w') && s.event.RevokeUser?
    ensures w'.table.Keys == w.table.Keys && w'.chains == w.chains && s.outcome == Done
    ensures forall id :: id in w.table ==>
      RevokedIf(w.table[id], w'.table[id], w.table[id].tenant == s.event.tenant && w.table[id].user == s.event.user)
  {
  }

  /** A login is refused, without change, exactly when its id or token is taken. Otherwise its row
      is added, active, the first of its own family. */
  lemma CreateIsExact(w: World, s: Step, w': World)
    requires Next(w, s, w') && s.event.Create?
    ensures var e, t, t' := s.event, w.table, w'.table;
      if e.id in t || exists i :: i in t && t[i].tokenHash == e.tokenHash then s.outcome == TokenConflict && w' == w
      else
        && s.outcome == Done && t'.Keys == t.Keys + {e.id} && (forall i :: i in t ==> t'[i] == t[i])
        && var r := t'[e.id];
           && r.tenant == e.tenant && r.user == e.user && r.tokenHash == e.tokenHash && r.family == e.id
           && r.status.Active? && r.replacedBy.None? && r.createdAt == e.at && r.expiresAt == e.expiresAt
  {
  }

  /** What becomes of a rotation whose token has a row. */
  datatype Refusal = NotUsable | NoLifetime | Taken | Granted

  /** Why the rotation of this row is refused, if it is; in the order in which that is found out. */
  predicate IsRefusal(t: Table, e: Event, r: Row, why: Refusal)
    requires e.Rotate?
  {
    match why
    case NotUsable => (e.tenant, r.user) !in e.activeUsers || !r.status.Active? || e.now > r.expiresAt
    case NoLifetime =>
      (e.tenant, r.user) in e.activeUsers && r.status.Active? && e.now <= r.expiresAt && r.createdAt >= r.expiresAt
    case Taken =>
      && (e.tenant, r.user) in e.activeUsers && r.status.Active? && e.now <= r.expiresAt && r.createdAt < r.expiresAt
      && (e.newId in t || exists i :: i in t && t[i].tokenHash == e.newHash)
    case Granted =>
      && (e.tenant, r.user) in e.activeUsers && r.status.Active? && e.now <= r.expiresAt && r.createdAt < r.expiresAt
      && e.newId !in t && forall i :: i in t ==> t[i].tokenHash != e.newHash
  }

  /** A replayed token of an active user: its row is revoked and was replaced. */
  predicate Replayed(e: Event, r: Row)
    requires e.Rotate?
  {
    (e.tenant, r.user) in e.activeUsers && r.status.Revoked? && r.replacedBy.Some?
  }

  /** The table after a granted rotation: the row is revoked and names its successor, which takes
      over tenant, user and family and lives as long again from now; nothing else changes. */
  ghost predicate Succeeds(t: Table, e: Event, id: Id, t': Table)
    requires e.Rotate? && id in t
  {
    && t'.Keys == t.Keys + {e.newId} && (forall i :: i in t && i != id ==> t'[i] == t[i])
    && var was, row, next := t[id], t'[id], t'[e.newId];
       && row.status.Revoked? && row.replacedBy == Some(e.newId) && row.tenant == was.tenant && row.user == was.user
       && row.tokenHash == was.tokenHash && row.family == was.family
       && row.createdAt == was.createdAt && row.expiresAt == was.expiresAt
       && next.tenant == was.tenant && next.user == was.user && next.tokenHash == e.newHash
       && next.family == was.family && next.status.Active? && next.replacedBy.None?
       && next.createdAt == e.at && next.expiresAt - e.now == was.expiresAt - was.createdAt
  }

  /** The answer to a rotation and everything it changes, in each case. */
  lemma RotateIsExact(w: World, s: Step, w': World, id: Id, why: Refusal)
    requires UniqueHashes(w.table) && Next(w, s, w') && s.event.Rotate?
    requires id in w.table && Owned(w.table[id], s.event.tenant, s.event.tokenHash)
    requires IsRefusal(w.table, s.event, w.table[id], why)
    ensures var e, t, t', r := s.event, w.table, w'.table, w.table[id];
      match why
      case NotUsable =>
        && s.outcome == InvalidToken
        && if Replayed(e, r) then
             && t'.Keys == t.Keys
             && forall i :: i in t ==> RevokedIf(t[i], t'[i], t[i].tenant == r.tenant && t[i].family == r.family)
           else t' == t
      case NoLifetime => s.outcome == BadTtl && t' == t
      case Taken => s.outcome == TokenConflict && t' == t
      case Granted => s.outcome == Rotated(r.user) && Succeeds(t, e, id, t')
  {
    assert Finds(w.table, s.event.tenant, s.event.tokenHash, id);
    assert forall i :: Finds(w.table, s.event.tenant, s.event.tokenHash, i) ==> i == id;
    if Locks(w.table, s.event, id) {
      assert (w'.table, s.outcome) == RotateRow(w.table, id, s.event);
    }
  }

  /** An unknown token changes nothing. */
  lemma UnknownIsRefused(w: World, s: Step, w': World)
    requires Next(w, s, w') && s.event.Rotate?
    requires forall id :: id in w.table ==> !Owned(w.table[id], s.event.tenant, s.event.tokenHash)
    ensures s.outcome == InvalidToken && w'.table == w.table
  {
    assert forall id :: !Locks(w.table, s.event, id);
  }

  // ---- A revoked token stays out ----

  lemma UniqueThroughout(ws: seq<World>, ss: seq<Step>)
    requires Run(ws, ss)
    ensures forall i :: 0 <= i < |ws| ==> UniqueHashes(ws[i].table)
  {
    var unique := (w: World) => UniqueHashes(w.table);
    forall w, s, w' | unique(w) && Next(w, s, w') ensures unique(w') {
      StepKeepsUnique(w, s, w');
    }
    Invariant(Next, ws, ss, unique);
    assert forall i :: 0 <= i < |ws| ==> unique(ws[i]);
  }

  lemma RetiredIsRefused(ws: seq<World>, ss: seq<Step>, i: nat, j: nat, hash: string)
    requires Run(ws, ss) && i <= j < |ss| && Retired(ws[i].table, hash)
    requires ss[j].event.Rotate? && ss[j].event.tokenHash == hash
    ensures !ss[j].outcome.Rotated?
  {
    UniqueThroughout(ws, ss);
    RetiredLater(ws[i..], ss[i..], hash);
    assert Retired(ws[i..][j - i].table, hash) && ws[i..][j - i] == ws[j];
    if ss[j].outcome.Rotated? {
      RotationRetires(ws[j], ss[j], ws[j + 1]);
      assert false;
    }
  }

  /** A token that was logged out is never exchanged again. */
  lemma LoggedOutStaysOut(ws: seq<World>, ss: seq<Step>, i: nat, j: nat)
    requires Run(ws, ss) && i < j < |ss| && ss[i].event.Logout? && ss[i].outcome == Done
    requires ss[j].event.Rotate? && ss[j].event.tokenHash == ss[i].event.tokenHash
    ensures !ss[j].outcome.Rotated?
  {
    UniqueThroughout(ws, ss);
    LogoutIsExact(ws[i], ss[i], ws[i + 1]);
    var id :| id in ws[i].table && ws[i].table[id].status.Active?
              && Owned(ws[i].table[id], ss[i].event.tenant, ss[i].event.tokenHash);
    assert RevokedIf(ws[i].table[id], ws[i + 1].table[id], true);
    RetiredIsRefused(ws, ss, i + 1, j, ss[i].event.tokenHash);
  }

  /** Nor is any token that a user had when the user's sessions were revoked. */
  lemma RevokedUserStaysOut(ws: seq<World>, ss: seq<Step>, i: nat, j: nat, id: Id)
    requires Run(ws, ss) && i < j < |ss| && ss[i].event.RevokeUser? && id in ws[i].table
    requires ws[i].table[id].tenant == ss[i].event.tenant && ws[i].table[id].user == ss[i].event.user
    requires ss[j].event.Rotate? && ss[j].event.tokenHash == ws[i].table[id].tokenHash
    ensures !ss[j].outcome.Rotated?
  {
    UniqueThroughout(ws, ss);
    RevokeUserIsExact(ws[i], ss[i], ws[i + 1]);
    assert RevokedIf(ws[i].table[id], ws[i + 1].table[id], true);
    RetiredIsRefused(ws, ss, i + 1, j, ws[i].table[id].tokenHash);
  }
}

/** The repository methods that insert, rotate and revoke sessions, as statements on the table.
    A transaction works on a copy of the table that is stored back when it commits. */
module AuthRepository {
  import opened Prelude
  import opened Sessions

  class Repository {
    var rows: Table

    /** What the database enforces. */
    ghost predicate Valid()
      reads this
    {
      UniqueHashes(rows)
    }

    constructor ()
      ensures Valid() && rows == map[]
    {
      rows := map[];
    }

    method CreateUserSession(e: Event) returns (out: Outcome)
      requires Valid() && e.Create?
      modifies this
      ensures Valid() && Effect(old(rows), e, rows, out)
    {
      if Conflicts(rows, e.id, e.tokenHash) {
        return TokenConflict;
      }
      InsertKeepsUnique(rows, e.id, e.tokenHash, CreateRow(rows, e).0);
      rows := rows[e.id := Row(e.tenant, e.user, e.tokenHash, e.id, Active, None, e.at, e.expiresAt)];
      out := Done;
    }

    /** SELECT ... FOR UPDATE: at most one row has the token. */
    method FindForUpdate(e: Event) returns (found: Option<Id>)
      requires Valid() && e.Rotate?
      ensures found.Some? ==> Locks(rows, e, found.value)
      ensures found.None? ==> forall id :: !Locks(rows, e, id)
    {
      var todo := rows.Keys;
      while todo != {}
        invariant todo <= rows.Keys && forall id :: id in rows && id !in todo ==> !Locks(rows, e, id)
        decreases todo
      {
        var id :| id in todo;
        var row := rows[id];
        if row.tenant == e.tenant && row.tokenHash == e.tokenHash && (e.tenant, row.user) in e.activeUsers {
          return Some(id);
        }
        todo := todo - {id};
      }
      found := None;
    }

    method RotateSessionByRefreshToken(e: Event) returns (out: Outcome)
      requires Valid() && e.Rotate?
      modifies this
      ensures Valid() && Effect(old(rows), e, rows, out)
    {
      var found := FindForUpdate(e);
      if found.None? {
        return InvalidToken;
      }
      var id := found.value;
      var session := rows[id];
      if session.status != Active || session.expiresAt < e.now {
        if session.status == Revoked && session.replacedBy.Some? {
          RevokeKeepsUnique(rows, ByFamily(e.tenant, session.family));
          rows := Revoke(rows, ByFamily(e.tenant, session.family));
        }
        assert (rows, InvalidToken) == RotateRow(old(rows), id, e);
        return InvalidToken;
      }
      var ttl := session.expiresAt - session.createdAt;
      if ttl <= 0 {
        assert (rows, BadTtl) == RotateRow(old(rows), id, e);
        return BadTtl;
      }
      var tx := rows;
      if Conflicts(tx, e.newId, e.newHash) {
        assert (rows, TokenConflict) == RotateRow(old(rows), id, e);
        return TokenConflict;
      }
      tx := tx[e.newId := Row(session.tenant, session.user, e.newHash, session.family, Active, None, e.at,
                              e.now + ttl)];
      tx := tx[id := session.(status := Revoked, replacedBy := Some(e.newId))];
      InsertKeepsUnique(rows, e.newId, e.newHash, tx);
      rows := tx;
      out := Rotated(session.user);
      assert (rows, out) == RotateRow(old(rows), id, e);
    }

    method RevokeSessionByRefreshToken(tenant: string, tokenHash: string) returns (out: Outcome)
      requires Valid()
      modifies this
      ensures Valid() && Effect(old(rows), Logout(tenant, tokenHash), rows, out)
    {
      var affected := exists id :: id in rows && rows[id].tenant == tenant && rows[id].tokenHash == tokenHash
                                   && rows[id].status == Active;
      RevokeKeepsUnique(rows, ByToken(tenant, tokenHash));
      rows := Revoke(rows, ByToken(tenant, tokenHash));
      out := if affected then Done else InvalidToken;
      assert affected <==> exists id :: Finds(old(rows), tenant, tokenHash, id) && old(rows)[id].status.Active?;
    }

    method RevokeActiveSessionsByUserID(tenant: string, user: string) returns (out: Outcome)
      requires Valid()
      modifies this
      ensures Valid() && Effect(old(rows), RevokeUser(tenant, user), rows, out)
    {
      RevokeKeepsUnique(rows, ByUser(tenant, user));
      rows := Revoke(rows, ByUser(tenant, user));
      out := Done;
    }
  }
}

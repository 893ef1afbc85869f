/** The session authority run one request at a time, on the tables it keeps. */
module SessionStore {
  import opened Base
  import opened SessionSpec

  /** The password is right, and the user is active and of a role that the audience is for. */
  predicate Welcome(db: Db, audience: Audience, found: Option<Uuid>, matched: bool) {
    && found.Some? && matched && found.value in db.users && db.users[found.value].active
    && (if audience == Staff then db.users[found.value].role in {"owner", "admin", "cs"}
        else db.users[found.value].role == "member")
  }

  /** The user's active sessions from before the generation are revoked; every other session is as it was. */
  ghost predicate Revokes(before: map<Uuid, Session>, after: map<Uuid, Session>, user: Uuid, generation: int) {
    && before.Keys == after.Keys
    && forall x :: x in before ==>
      after[x] ==
      if before[x].user == user && before[x].state == Active && before[x].security < generation
      then before[x].(state := Revoked) else before[x]
  }

  ghost predicate RevokesEvery(before: map<Uuid, Session>, after: map<Uuid, Session>, user: Uuid) {
    && before.Keys == after.Keys
    && forall x :: x in before ==>
      after[x] ==
      if before[x].user == user && before[x].state == Active then before[x].(state := Revoked) else before[x]
  }

  class AuthStore {
    var db: Db

    constructor (initial: Db)
      ensures db == initial
    {
      db := initial;
    }

    /** The two halves of a login without anything in between. */
    method Login(
      audience: Audience, found: Option<Uuid>, matched: bool, id: Uuid, digest: Digest) returns (r: Outcome<Uuid>)
      requires id !in db.sessions
      modifies this
      ensures match ReadForLogin(old(db), audience, found, matched)
        case Failed(error) => db == old(db) && r == Failed(error)
        case Done(login) => Attempt(db, r) == OpenSession(old(db), login, id, digest)
      ensures r == Failed(InvalidCredentials) <==> !Welcome(old(db), audience, found, matched)
      ensures r.Done? <==>
        && Welcome(old(db), audience, found, matched)
        && |ActiveSessions(old(db), found.value)| < (if audience == Staff then 2 else 5)
      ensures r.Done? ==>
        && var row := old(db).users[found.value];
        && db.users == old(db).users
        && db.sessions == old(db).sessions[id :=
             Session(found.value, row.version, audience, Active, 0, digest, None, row.generation)]
      ensures !r.Done? ==> db == old(db)
    {
      if found.None? || found.value !in db.users { return Failed(InvalidCredentials); }
      var row := db.users[found.value];
      if !matched || !row.active || !audience.Accepts(row.role) { return Failed(InvalidCredentials); }
      var limit := if audience == Staff then STAFF_SLOT_LIMIT else MEMBER_SLOT_LIMIT;
      var occupied := |ActiveSessions(db, found.value)|;
      if occupied >= limit { return Failed(Conflict); }
      ghost var before := db;
      db := db.(sessions := db.sessions[id :=
        Session(found.value, row.version, audience, Active, 0, digest, None, row.generation)]);
      assert ActiveSessions(db, found.value) == ActiveSessions(before, found.value) + {id};
      r := Done(id);
    }

    method RevokeAll(user: Uuid) returns (r: Outcome<()>)
      modifies this
      ensures Attempt(db, r) == SessionSpec.RevokeAll(old(db), user)
      ensures ActiveSessions(db, user) == {}
      ensures db.users == old(db).users && RevokesEvery(old(db).sessions, db.sessions, user)
      ensures r == Done(()) || r == Failed(Conflict)
      ensures r.Done? <==>
        exists x :: x in old(db).sessions && old(db).sessions[x].user == user && old(db).sessions[x].state == Active
    {
      var affected := ActiveSessions(db, user);
      assert forall x :: x in db.sessions && db.sessions[x].user == user && db.sessions[x].state == Active ==>
          x in affected;
      if |affected| == 0 { return Failed(Conflict); }
      db := RevokeEvery(db, user);
      r := Done(());
    }

    method Rotate(id: Uuid, predecessor: Digest) returns (r: Outcome<int>)
      modifies this
      ensures Attempt(db, r) == SessionSpec.Rotate(old(db), id, predecessor)
      ensures r.Done? <==>
        && id in old(db).sessions && old(db).sessions[id].state == Active && old(db).sessions[id].digest == predecessor
        && old(db).sessions[id].rotations != 0x7FFF_FFFF
      ensures r == Failed(InvalidCredentials) <==>
        id in old(db).sessions && old(db).sessions[id].state == Active && old(db).sessions[id].digest != predecessor
      ensures r.Done? ==>
        && var row := old(db).sessions[id];
        && r.value == row.rotations + 1
        && db.users == old(db).users
        && db.sessions == old(db).sessions[id := Session(row.user, row.version, row.audience, Active,
             row.rotations + 1, predecessor + [(row.rotations + 1) % 256], Some(predecessor), row.security)]
      ensures r.Failed? ==> r.error != Unavailable && db == old(db)
    {
      if id !in db.sessions || db.sessions[id].state != Active { return Failed(Conflict); }
      var current := db.sessions[id];
      if current.digest != predecessor { return Failed(InvalidCredentials); }
      if current.rotations == I32_MAX { return Failed(Conflict); }
      var next := current.rotations + 1;
      var successor := predecessor + [next % 256];
      db := db.(sessions := db.sessions[id :=
        current.(rotations := next, predecessor := Some(current.digest), digest := successor)]);
      r := Done(next);
    }

    method ChangeRole(user: Uuid, role: string) returns (r: Outcome<int>)
      modifies this
      ensures Attempt(db, r) == SessionSpec.ChangeRole(old(db), user, role)
      ensures r.Failed? ==> db == old(db)
      ensures r.Done? <==>
        && role in {"owner", "admin", "cs", "member"} && user in old(db).users
        && old(db).users[user].version != 0x7FFF_FFFF && old(db).users[user].generation != 0x7FFF_FFFF
      ensures r == Failed(Conflict) <==> role !in {"owner", "admin", "cs", "member"} || user !in old(db).users
      ensures r != Failed(InvalidCredentials)
      ensures r.Done? ==>
        && var row := old(db).users[user];
        && r.value == row.generation + 1
        && db.users == old(db).users[user := User(role, row.active, row.permissions, row.version + 1,
             row.generation + 1, row.secret, row.twoFactor)]
        && Revokes(old(db).sessions, db.sessions, user, row.generation + 1)
    {
      if !IsRole(role) { return Failed(Conflict); }
      if user !in db.users { return Failed(Conflict); }
      var row := db.users[user];
      if row.version == I32_MAX || row.generation == I32_MAX { return Failed(Unavailable); }
      var tx := db;
      var changed := row.(role := role, version := row.version + 1, generation := row.generation + 1);
      tx := tx.(users := tx.users[user := changed]);
      tx := RevokeBelow(tx, user, row.generation + 1);
      db := tx;
      r := Done(row.generation + 1);
    }

    method Authorize(id: Uuid, permission: string) returns (allowed: bool)
      ensures allowed == Authorized(db, id, permission)
      ensures allowed <==>
        && id in db.sessions && db.sessions[id].state == Active && db.sessions[id].user in db.users
        && var s, u := db.sessions[id], db.users[db.sessions[id].user];
        && u.active && s.security == u.generation && (permission in u.permissions || u.role == "owner")
    {
      if id !in db.sessions { return false; }
      var s := db.sessions[id];
      if s.state != Active || s.user !in db.users || !db.users[s.user].active { return false; }
      var u := db.users[s.user];
      allowed := (u.role == "owner" || permission in u.permissions) && s.security == u.generation;
    }

    method EnrollTwoFactor(user: Uuid, secret: Digest) returns (r: Outcome<()>)
      modifies this
      ensures Attempt(db, r) == Enroll(old(db), user, secret)
      ensures r.Done? <==> 16 <= |secret| && user in old(db).users && !old(db).users[user].twoFactor
      ensures r.Failed? ==> r.error == Conflict && db == old(db)
      ensures r.Done? ==>
        && db.sessions == old(db).sessions
        && db.users == old(db).users[user := old(db).users[user].(secret := Some(secret))]
    {
      if |secret| < 16 { return Failed(Conflict); }
      if user !in db.users || db.users[user].twoFactor { return Failed(Conflict); }
      db := db.(users := db.users[user := db.users[user].(secret := Some(secret), twoFactor := false)]);
      r := Done(());
    }

    method ConfirmTwoFactor(user: Uuid, code: string, expected: string) returns (r: Outcome<()>)
      modifies this
      ensures Attempt(db, r) == Confirm(old(db), user, code, expected)
      ensures r.Failed? ==> db == old(db)
      ensures r.Done? <==>
        && |code| == 6 && (forall i :: 0 <= i < |code| ==> '0' <= code[i] <= '9') && code == expected
        && user in old(db).users && old(db).users[user].secret.Some? && old(db).users[user].secret.value != []
        && old(db).users[user].generation != 0x7FFF_FFFF
      ensures r == Failed(Conflict) <==>
        && |code| == 6 && (forall i :: 0 <= i < |code| ==> '0' <= code[i] <= '9')
        && (user in old(db).users ==>
              old(db).users[user].secret == None || old(db).users[user].secret == Some([]))
      ensures r.Done? ==>
        && var row := old(db).users[user];
        && db.users == old(db).users[user := row.(twoFactor := true, generation := row.generation + 1)]
        && RevokesEvery(old(db).sessions, db.sessions, user)
    {
      if !SixDigits(code) { return Failed(InvalidCredentials); }
      var tx := db;
      if user !in tx.users { return Failed(Conflict); }
      var row := tx.users[user];
      if row.secret.None? || row.secret.value == [] { return Failed(Conflict); }
      if expected != code { return Failed(InvalidCredentials); }
      if row.generation == I32_MAX { return Failed(Unavailable); }
      tx := tx.(users := tx.users[user := row.(twoFactor := true, generation := row.generation + 1)]);
      tx := RevokeEvery(tx, user);
      db := tx;
      r := Done(());
    }
  }
}

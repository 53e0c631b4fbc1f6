/**
 * internal/user/repository/postgres.go and internal/user/app/service.go over mutable tables,
 * proved against the transactions of Users.
 */
module UserService {
  import opened Prelude
  import opened Events
  import opened Users

  class Repository {
    var users: map<Uuid, User>
    var tokens: map<nat, Token>
    var outbox: seq<Envelope>

    constructor ()
      ensures Tables() == EMPTY
    {
      users, tokens, outbox := map[], map[], [];
    }

    function Tables(): Db
      reads this
    {
      Db(users, tokens, outbox)
    }

    method Restore(db: Db)
      modifies this
      ensures Tables() == db
    {
      users, tokens, outbox := db.users, db.tokens, db.outbox;
    }

    method Get(id: Uuid) returns (user: Option<User>)
      ensures user == Find(Tables(), id)
    {
      if id in users {
        user := Some(users[id]);
      } else {
        user := None;
      }
    }

    /** withEvent after its statements: the outbox row, then the commit; a rollback restores `start`. */
    method Finish(start: Db, eventId: Uuid, eventType: string, id: Uuid, data: Data, ending: Ending)
        returns (error: Option<Error>)
      modifies this
      ensures Outcome(Tables(), error) == Close(start, old(Tables()), eventId, eventType, id, data, ending)
    {
      outbox := outbox + [Envelope(eventId, eventType, id, data)];
      if ending.Aborted? {
        Restore(start);
      }
      error := if ending.Committed? then None else Some(Database);
    }

    method Create(u: User, permissions: seq<string>, eventId: Uuid, ending: Ending) returns (error: Option<Error>)
      modifies this
      ensures Outcome(Tables(), error) == CreateTx(old(Tables()), u, permissions, eventId, ending)
    {
      var start := Tables();
      if u.id in users || LoginTaken(start, u.login) {
        return Some(Database);
      }
      users := users[u.id := u.(telegram := None, permissions := {})];
      var ok := InsertPermissions(u.id, permissions);
      if !ok {
        Restore(start);
        return Some(Database);
      }
      error := Finish(start, eventId, "user.created", u.id, Payload(u.id, TelegramJson(u.telegram), Bool(u.active)),
          ending);
    }

    /** The INSERT loop over user_permissions; the primary key refuses a repeated code. */
    method InsertPermissions(id: Uuid, ps: seq<string>) returns (ok: bool)
      requires id in users && users[id].permissions == {}
      modifies this`users
      ensures ok <==> Distinct(ps)
      ensures ok ==> users == old(users)[id := old(users)[id].(permissions := CodesOf(ps))]
    {
      assert users[id].(permissions := CodesOf(ps[..0])) == users[id];
      assert users[id := users[id]] == users;
      for i := 0 to |ps|
        invariant Distinct(ps[..i])
        invariant id in users && users == old(users)[id := old(users)[id].(permissions := CodesOf(ps[..i]))]
      {
        if ps[i] in users[id].permissions {
          var k :| 0 <= k < i && ps[..i][k] == ps[i];
          assert ps[k] == ps[i];
          return false;
        }
        assert ps[..i + 1] == ps[..i] + [ps[i]];
        assert CodesOf(ps[..i + 1]) == CodesOf(ps[..i]) + {ps[i]};
        users := users[id := users[id].(permissions := users[id].permissions + {ps[i]})];
      }
      assert ps[..|ps|] == ps;
      ok := true;
    }

    method SetPermissions(id: Uuid, ps: seq<string>, eventId: Uuid, ending: Ending) returns (error: Option<Error>)
      modifies this
      ensures Outcome(Tables(), error) == SetPermissionsTx(old(Tables()), id, ps, eventId, ending)
    {
      var start := Tables();
      if id !in users {
        return Some(NotFound);
      }
      users := users[id := users[id].(permissions := {})];
      var ok := InsertPermissions(id, ps);
      if !ok {
        Restore(start);
        return Some(Database);
      }
      assert users == start.users[id := start.users[id].(permissions := CodesOf(ps))];
      error := Finish(start, eventId, "user.updated", id, About(id), ending);
    }

    /** `mutate`: one UPDATE of the user's row, which must exist. */
    method Mutate(id: Uuid, row: User, eventId: Uuid, eventType: string, data: Data, ending: Ending)
        returns (error: Option<Error>)
      modifies this
      ensures Outcome(Tables(), error) == MutateTx(old(Tables()), id, row, eventId, eventType, data, ending)
    {
      var start := Tables();
      if id !in users {
        return Some(NotFound);
      }
      users := users[id := row];
      error := Finish(start, eventId, eventType, id, data, ending);
    }

    method SetActive(id: Uuid, active: bool, eventId: Uuid, ending: Ending) returns (error: Option<Error>)
      modifies this
      ensures Outcome(Tables(), error) == SetActiveTx(old(Tables()), id, active, eventId, ending)
    {
      var eventType := "user.updated";
      if !active {
        eventType := "user.disabled";
      }
      error := Mutate(id, Row(Tables(), id).(active := active), eventId, eventType, Payload(id, Absent, Bool(active)),
          ending);
    }

    method BindTelegram(id: Uuid, telegramId: int, eventId: Uuid, ending: Ending) returns (error: Option<Error>)
      modifies this
      ensures Outcome(Tables(), error) == BindTx(old(Tables()), id, telegramId, eventId, ending)
    {
      if id in users && TelegramTaken(Tables(), id, telegramId) {
        return Some(Conflict);
      }
      error := Mutate(id, Row(Tables(), id).(telegram := Some(telegramId)), eventId, "user.telegram_bound",
                      Payload(id, Number(telegramId), Absent), ending);
    }

    method RedeemTelegramLink(hash: nat, telegramId: int, now: int, eventId: Uuid, ending: Ending)
      returns (error: Option<Error>, user: Uuid)
      modifies this
      ensures Outcome(Tables(), error) == RedeemTx(old(Tables()), hash, telegramId, now, eventId, ending)
      ensures error.None? ==> hash in tokens && user == tokens[hash].user
    {
      var start := Tables();
      user := NIL;
      if hash !in tokens || tokens[hash].usedAt.Some? || tokens[hash].expiresAt <= now {
        return Some(NotFound), user;
      }
      user := tokens[hash].user;
      if user !in users {
        return Some(NotFound), NIL;
      }
      if TelegramTaken(start, user, telegramId) {
        return Some(Conflict), NIL;
      }
      users := users[user := users[user].(telegram := Some(telegramId))];
      tokens := tokens[hash := tokens[hash].(usedAt := Some(now))];
      error := Finish(start, eventId, "user.telegram_bound", user, Payload(user, Number(telegramId), Absent), ending);
    }

    method CreateTelegramLink(hash: nat, user: Uuid, expiresAt: int, ending: Ending) returns (error: Option<Error>)
      modifies this
      ensures users == old(users) && outbox == old(outbox)
      ensures error.None? <==> hash !in old(tokens) && user in users && ending.Committed?
      ensures tokens == if hash !in old(tokens) && user in users && ending.Durable()
          then old(tokens)[hash := Token(user, expiresAt, None)] else old(tokens)
      ensures error.Some? ==> error == Some(Database)
    {
      if hash in tokens || user !in users || ending.Aborted? {
        return Some(Database);
      }
      tokens := tokens[hash := Token(user, expiresAt, None)];
      error := if ending.Committed? then None else Some(Database);
    }
  }

  class Service {
    const store: Repository

    constructor (store: Repository)
      ensures this.store == store
    {
      this.store := store;
    }

    /** Create of a trimmed login and name; the hash of the password and the new id are inputs. */
    method Create(id: Uuid, login: string, hash: string, fullName: string, role: Role, eventId: Uuid, ending: Ending)
        returns (error: Option<Error>, user: Option<User>)
      requires id != NIL
      modifies store
      ensures Outcome(store.Tables(), error)
          == Apply(old(store.Tables()), Users.Create(id, login, hash, fullName, role, eventId, ending))
      ensures error.None? ==> id !in old(store.users) && user == Find(store.Tables(), id)
      ensures error.None? ==> user.Some? && user.value.login == login && user.value.fullName == fullName
                              && user.value.role == role && user.value.active && user.value.telegram.None?
    {
      user := None;
      if !ValidLogin(login) || fullName == "" {
        return Some(Validation), user;
      }
      var u := User(id, login, hash, fullName, role, true, None, {});
      error := store.Create(u, DefaultPermissions(role), eventId, ending);
      if error.None? {
        user := store.Get(id);
      }
    }

    /** CreateTelegramLink; the random token, its digest and the clock are inputs, the token and its end the answer. */
    method CreateTelegramLink(token: string, hash: nat, user: Uuid, asked: int, now: int, ending: Ending)
      returns (error: Option<Error>, link: string, expiresAt: int)
      modifies store
      ensures Outcome(store.Tables(), error) == Apply(old(store.Tables()), CreateLink(hash, user, asked, now, ending))
      ensures error.None? ==>
                && link == token && hash in store.tokens
                && store.tokens[hash] == Token(user, expiresAt, None) && expiresAt == now + Validity(asked)
                && now + MINUTE <= expiresAt <= now + DAY && hash !in old(store.tokens) && user in store.users
    {
      link, expiresAt := "", 0;
      var validity := asked;
      if user == NIL {
        return Some(Validation), link, expiresAt;
      }
      if validity == 0 {
        validity := DEFAULT_VALIDITY;
      }
      if validity < MINUTE || validity > DAY {
        return Some(Validation), link, expiresAt;
      }
      error := store.CreateTelegramLink(hash, user, now + validity, ending);
      if error.None? {
        link, expiresAt := token, now + validity;
      }
    }

    /** RedeemTelegramLink of a non-empty token. */
    method RedeemTelegramLink(hash: nat, telegramId: int, now: int, eventId: Uuid, ending: Ending)
      returns (error: Option<Error>, user: Option<User>)
      modifies store
      ensures Outcome(store.Tables(), error)
          == Apply(old(store.Tables()), Redeem(hash, telegramId, now, eventId, ending))
      ensures error.None? ==> hash in store.tokens && user == Find(store.Tables(), store.tokens[hash].user)
      ensures error.None? ==> user.Some? && user.value.telegram == Some(telegramId)
      // bound to another account: token, users and outbox stay as they were
      ensures Redeemable(old(store.Tables()), hash, now)
          && TelegramTaken(old(store.Tables()), old(store.tokens)[hash].user, telegramId)
          ==> error.Some? && store.Tables() == old(store.Tables())
    {
      user := None;
      if telegramId == 0 {
        return Some(Validation), user;
      }
      var id;
      error, id := store.RedeemTelegramLink(hash, telegramId, now, eventId, ending);
      if error.None? {
        user := store.Get(id);
      }
    }

    method BindTelegram(id: Uuid, telegramId: int, eventId: Uuid, ending: Ending)
        returns (error: Option<Error>, user: Option<User>)
      modifies store
      ensures Outcome(store.Tables(), error) == Apply(old(store.Tables()), Bind(id, telegramId, eventId, ending))
      ensures error.None? ==> user == Find(store.Tables(), id)
      ensures error.None? ==> user.Some? && user.value.telegram == Some(telegramId)
    {
      user := None;
      if telegramId == 0 {
        return Some(Validation), user;
      }
      error := store.BindTelegram(id, telegramId, eventId, ending);
      if error.None? {
        user := store.Get(id);
      }
    }

    method Permissions(id: Uuid, ps: seq<string>, eventId: Uuid, ending: Ending)
        returns (error: Option<Error>, user: Option<User>)
      modifies store
      ensures Outcome(store.Tables(), error)
          == Apply(old(store.Tables()), Users.SetPermissions(id, ps, eventId, ending))
      ensures error.None? ==> user == Find(store.Tables(), id)
      ensures error.None? ==> user.Some? && user.value.permissions == set p | p in ps
    {
      user := None;
      for i := 0 to |ps|
        invariant ValidPermissions(ps[..i])
        invariant store.Tables() == old(store.Tables())
      {
        if ps[i] !in ALL_PERMISSIONS {
          return Some(Validation), user;
        }
        assert ps[..i + 1] == ps[..i] + [ps[i]];
      }
      assert ps[..|ps|] == ps;
      error := store.SetPermissions(id, ps, eventId, ending);
      if error.None? {
        user := store.Get(id);
      }
    }
  }
}


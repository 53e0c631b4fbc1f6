/**
 * What each user operation does, stated in terms of its request alone: when it takes effect and
 * which rows it leaves. From this follows where every cell of a user comes from, and how long a
 * Telegram link can be redeemed.
 */
module UserEffects {
  import opened Prelude
  import opened Events
  import opened Users

  ghost predicate TakesEffect(db: Db, op: Op) {
    Apply(db, op).db != db
  }

  /** Only this user's row changed, to this. */
  ghost predicate RowBecomes(db: Db, t: Db, id: Uuid, row: User) {
    t.users == db.users[id := row] && t.tokens == db.tokens
  }

  predicate HeldByAnother(db: Db, id: Uuid, telegramId: int) {
    exists u :: u in db.users && u != id && db.users[u].telegram == Some(telegramId)
  }

  // ---------- When an operation takes effect, and what it then leaves ----------

  lemma AllDistinct()
    ensures Distinct(ALL_PERMISSIONS) && Distinct(["ORDER_READ_ASSIGNED"])
  {
  }

  /** A user is stored under an id and a login nobody has, active, unbound, with the permissions of the role. */
  lemma CreateStores(db: Db, op: Op)
    requires op.Create?
    ensures TakesEffect(db, op)
            <==> && ValidLogin(op.login) && op.fullName != ""
                 && op.id != NIL && op.id !in db.users && op.ending.Durable()
                 && forall u :: u in db.users ==> db.users[u].login != op.login
    ensures TakesEffect(db, op) ==>
              RowBecomes(db, Apply(db, op).db, op.id,
                User(op.id, op.login, op.hash, op.fullName, op.role, true, None,
                  if op.role.Admin? then set p | p in ALL_PERMISSIONS else {"ORDER_READ_ASSIGNED"}))
  {
    hide ValidLogin;
    AllDistinct();
    assert CodesOf(["ORDER_READ_ASSIGNED"]) == {"ORDER_READ_ASSIGNED"};
    if ValidLogin(op.login) && op.fullName != "" && op.id != NIL && op.id !in db.users && op.ending.Durable()
       && !LoginTaken(db, op.login) {
      var t := Apply(db, op).db;
      assert |t.outbox| == |db.outbox| + 1;
    }
  }

  lemma NameStores(db: Db, op: Op)
    requires op.UpdateName?
    ensures TakesEffect(db, op) <==> op.id in db.users && op.ending.Durable()
    ensures TakesEffect(db, op) ==> RowBecomes(db, Apply(db, op).db, op.id, db.users[op.id].(fullName := op.name))
  {
    if op.id in db.users && op.ending.Durable() {
      assert |Apply(db, op).db.outbox| == |db.outbox| + 1;
    }
  }

  lemma PasswordStores(db: Db, op: Op)
    requires op.SetPassword?
    ensures TakesEffect(db, op) <==> op.id in db.users && op.ending.Durable()
    ensures TakesEffect(db, op) ==> RowBecomes(db, Apply(db, op).db, op.id, db.users[op.id].(hash := op.hash))
  {
    if op.id in db.users && op.ending.Durable() {
      assert |Apply(db, op).db.outbox| == |db.outbox| + 1;
    }
  }

  /** Permissions are replaced: what was granted before and is not in the list is gone. */
  lemma PermissionsStore(db: Db, op: Op)
    requires op.SetPermissions?
    ensures TakesEffect(db, op)
            <==> && op.id in db.users && op.ending.Durable() && Distinct(op.permissions)
                 && forall p :: p in op.permissions ==> p in ALL_PERMISSIONS
    ensures TakesEffect(db, op) ==>
              RowBecomes(db, Apply(db, op).db, op.id, db.users[op.id].(permissions := set p | p in op.permissions))
  {
    if op.id in db.users && op.ending.Durable() && Distinct(op.permissions)
       && forall p :: p in op.permissions ==> p in ALL_PERMISSIONS {
      assert |Apply(db, op).db.outbox| == |db.outbox| + 1;
    }
  }

  lemma ActiveStores(db: Db, op: Op)
    requires op.SetActive?
    ensures TakesEffect(db, op) <==> op.id in db.users && op.ending.Durable()
    ensures TakesEffect(db, op) ==> RowBecomes(db, Apply(db, op).db, op.id, db.users[op.id].(active := op.active))
  {
    if op.id in db.users && op.ending.Durable() {
      assert |Apply(db, op).db.outbox| == |db.outbox| + 1;
    }
  }

  lemma BindStores(db: Db, op: Op)
    requires op.Bind?
    ensures TakesEffect(db, op)
            <==> && op.telegramId != 0 && op.id in db.users && op.ending.Durable()
                 && !HeldByAnother(db, op.id, op.telegramId)
    ensures TakesEffect(db, op) ==>
              RowBecomes(db, Apply(db, op).db, op.id, db.users[op.id].(telegram := Some(op.telegramId)))
  {
    if op.telegramId != 0 && op.id in db.users && op.ending.Durable() && !HeldByAnother(db, op.id, op.telegramId) {
      assert |Apply(db, op).db.outbox| == |db.outbox| + 1;
    }
  }

  /** The seconds a link lives: those asked for, fifteen minutes by default. */
  function Lifetime(asked: int): int {
    if asked == 0 then 900 else asked
  }

  lemma LinkStores(db: Db, op: Op)
    requires op.CreateLink?
    ensures TakesEffect(db, op)
            <==> && op.id != NIL && op.id in db.users && op.token !in db.tokens && op.ending.Durable()
                 && 60 <= Lifetime(op.asked) <= 86400
    ensures TakesEffect(db, op) ==>
              Apply(db, op).db
              == db.(tokens := db.tokens[op.token := Token(op.id, op.now + Lifetime(op.asked), None)])
  {
    if op.token !in db.tokens {
      assert db.tokens[op.token := Token(op.id, op.now + Lifetime(op.asked), None)] != db.tokens;
    }
  }

  /** A link is redeemed while it is unused and not over, for a Telegram id nobody else has. */
  lemma RedeemStores(db: Db, op: Op)
    requires op.Redeem?
    ensures TakesEffect(db, op)
            <==> && op.telegramId != 0 && op.token in db.tokens && op.ending.Durable()
                 && var link := db.tokens[op.token];
                    link.usedAt.None? && op.now < link.expiresAt && link.user in db.users
                    && !HeldByAnother(db, link.user, op.telegramId)
    ensures TakesEffect(db, op) ==>
              && op.token in db.tokens && db.tokens[op.token].user in db.users
              && var t, link := Apply(db, op).db, db.tokens[op.token];
                 && t.users == db.users[link.user := db.users[link.user].(telegram := Some(op.telegramId))]
                 && t.tokens == db.tokens[op.token := link.(usedAt := Some(op.now))]
  {
    if && op.telegramId != 0 && op.token in db.tokens && op.ending.Durable()
       && var link := db.tokens[op.token];
          link.usedAt.None? && op.now < link.expiresAt && link.user in db.users
          && !HeldByAnother(db, link.user, op.telegramId) {
      assert |Apply(db, op).db.outbox| == |db.outbox| + 1;
    }
  }

  // ---------- The event it emits ----------

  /** The event of an operation that takes effect on this user: its type, and the two columns it carries. */
  function EventOf(op: Op, user: Uuid): Envelope
    requires !op.CreateLink?
  {
    match op
    case Create(_, _, _, _, _, e, _) =>
      Envelope(e, "user.created", user, Object(Id(user), Null, Bool(true), Absent, Absent))
    case SetActive(_, active, e, _) =>
      Envelope(e, if active then "user.updated" else "user.disabled", user,
               Object(Id(user), Absent, Bool(active), Absent, Absent))
    case Bind(_, telegramId, e, _) =>
      Envelope(e, "user.telegram_bound", user, Object(Id(user), Number(telegramId), Absent, Absent, Absent))
    case Redeem(_, telegramId, _, e, _) =>
      Envelope(e, "user.telegram_bound", user, Object(Id(user), Number(telegramId), Absent, Absent, Absent))
    case UpdateName(_, _, e, _) => Envelope(e, "user.updated", user, Object(Id(user), Absent, Absent, Absent, Absent))
    case SetPassword(_, _, e, _) => Envelope(e, "user.updated", user, Object(Id(user), Absent, Absent, Absent, Absent))
    case SetPermissions(_, _, e, _) =>
        Envelope(e, "user.updated", user, Object(Id(user), Absent, Absent, Absent, Absent))
  }

  /** Each operation that takes effect appends exactly its event; a link and a refused request append none. */
  lemma EventIsWritten(db: Db, op: Op)
    ensures var t := Apply(db, op).db;
            t.outbox == db.outbox + if !TakesEffect(db, op) || op.CreateLink? then []
                                    else [EventOf(op, if op.Redeem? then t.tokens[op.token].user else op.id)]
  {
  }

  // ---------- What the client is told ----------

  /** A reported success took effect; an error that took effect is a lost acknowledgement. */
  lemma SuccessIsTrue(db: Db, op: Op)
    ensures Apply(db, op).error.None? <==> TakesEffect(db, op) && op.ending.Committed?
    ensures TakesEffect(db, op) && Apply(db, op).error.Some? ==>
              Apply(db, op).error == Some(Database) && op.ending.AckLost?
  {
    hide TelegramTaken, LoginTaken, ValidLogin, ValidPermissions, Distinct, DefaultPermissions;
    var t := Apply(db, op);
    if t.error.None? {
      if op.CreateLink? {
        LinkStores(db, op);
      } else {
        assert |t.db.outbox| == |db.outbox| + 1;
      }
    }
  }

  /**
   * Why a request is refused. Validation: the zero Telegram id, an unknown permission, or a link for
   * nobody or of a length outside a minute to a day. NotFound: no such user, or no link that can be
   * redeemed. Conflict: another user holds the Telegram id.
   */
  lemma RefusalTells(db: Db, op: Op)
    ensures var error := Apply(db, op).error;
            match op
            case Create(_, login, _, fullName, _, _, _) =>
              && (error == Some(Validation) <==> !ValidLogin(login) || fullName == "")
              && error != Some(NotFound) && error != Some(Conflict)
            case SetPermissions(id, ps, _, _) =>
              && (error == Some(Validation) <==> exists p :: p in ps && p !in ALL_PERMISSIONS)
              && (error == Some(NotFound) <==> id !in db.users && forall p :: p in ps ==> p in ALL_PERMISSIONS)
            case Bind(id, telegramId, _, _) =>
              && (error == Some(Validation) <==> telegramId == 0)
              && (error == Some(NotFound) <==> telegramId != 0 && id !in db.users)
              && (error == Some(Conflict) <==> telegramId != 0 && id in db.users && HeldByAnother(db, id, telegramId))
            case CreateLink(_, id, asked, _, _) =>
              (error == Some(Validation) <==> id == NIL || Lifetime(asked) < 60 || 86400 < Lifetime(asked))
            case Redeem(token, telegramId, now, _, _) =>
              && (error == Some(Validation) <==> telegramId == 0)
              && (error == Some(NotFound) <==>
                    telegramId != 0
                    && !(token in db.tokens && db.tokens[token].usedAt.None? && now < db.tokens[token].expiresAt
                         && db.tokens[token].user in db.users))
              && (error == Some(Conflict) <==>
                    && telegramId != 0 && token in db.tokens && db.tokens[token].usedAt.None?
                    && now < db.tokens[token].expiresAt && db.tokens[token].user in db.users
                    && HeldByAnother(db, db.tokens[token].user, telegramId))
            case _ => error == Some(NotFound) <==> op.id !in db.users
  {
    hide LoginTaken, ValidLogin, Distinct, DefaultPermissions;
  }

  // ---------- Runs ----------

  function At(ops: seq<Op>, n: nat): Db
    requires n <= |ops|
  {
    Run(EMPTY, ops[..n])
  }

  lemma AtNext(ops: seq<Op>, n: nat)
    requires n < |ops|
    ensures At(ops, n + 1) == Apply(At(ops, n), ops[n]).db
  {
    assert ops[..n + 1][..n] == ops[..n];
  }

  ghost predicate Effective(ops: seq<Op>, n: nat) {
    n < |ops| && TakesEffect(At(ops, n), ops[n])
  }

  // ---------- Where the cells of a user come from ----------

  datatype Column =
    | LoginColumn | HashColumn | NameColumn | RoleColumn | ActiveColumn | TelegramColumn | PermissionsColumn

  datatype Cell =
    | TextCell(text: string) | RoleCell(role: Role) | ActiveCell(active: bool) | TelegramCell(telegram: Option<int>)
    | CodesCell(codes: set<string>)

  function CellOf(u: User, c: Column): Cell {
    match c
    case LoginColumn => TextCell(u.login)
    case HashColumn => TextCell(u.hash)
    case NameColumn => TextCell(u.fullName)
    case RoleColumn => RoleCell(u.role)
    case ActiveColumn => ActiveCell(u.active)
    case TelegramColumn => TelegramCell(u.telegram)
    case PermissionsColumn => CodesCell(u.permissions)
  }

  /** The user an operation is about: a redemption is about the one its link was made for. */
  function UserOf(db: Db, op: Op): Option<Uuid> {
    match op
    case Redeem(token, _, _, _, _) => if token in db.tokens then Some(db.tokens[token].user) else None
    case _ => Some(op.id)
  }

  /** What an operation writes into a column of its user; None where it leaves the column alone. */
  function Given(op: Op, c: Column): Option<Cell> {
    match op
    case Create(id, login, hash, fullName, role, _, _) =>
      (match c
       case LoginColumn => Some(TextCell(login))
       case HashColumn => Some(TextCell(hash))
       case NameColumn => Some(TextCell(fullName))
       case RoleColumn => Some(RoleCell(role))
       case ActiveColumn => Some(ActiveCell(true))
       case TelegramColumn => Some(TelegramCell(None))
       case PermissionsColumn =>
         Some(CodesCell(if role.Admin? then set p | p in ALL_PERMISSIONS else {"ORDER_READ_ASSIGNED"})))
    case UpdateName(_, name, _, _) => if c.NameColumn? then Some(TextCell(name)) else None
    case SetPassword(_, hash, _, _) => if c.HashColumn? then Some(TextCell(hash)) else None
    case SetPermissions(_, ps, _, _) => if c.PermissionsColumn? then Some(CodesCell(set p | p in ps)) else None
    case SetActive(_, active, _, _) => if c.ActiveColumn? then Some(ActiveCell(active)) else None
    case Bind(_, telegramId, _, _) => if c.TelegramColumn? then Some(TelegramCell(Some(telegramId))) else None
    case CreateLink(_, _, _, _, _) => None
    case Redeem(_, telegramId, _, _, _) => if c.TelegramColumn? then Some(TelegramCell(Some(telegramId))) else None
  }

  /** An operation that takes effect leaves the cells of its user as given or as they were, and other users alone. */
  lemma Gives(db: Db, op: Op, u: Uuid, c: Column)
    requires TakesEffect(db, op) && u in Apply(db, op).db.users
    ensures var t := Apply(db, op).db;
            if UserOf(db, op) == Some(u) && Given(op, c).Some? then Given(op, c) == Some(CellOf(t.users[u], c))
            else u in db.users && CellOf(t.users[u], c) == CellOf(db.users[u], c)
  {
    hide Apply, HeldByAnother, TakesEffect, Distinct;
    match op
    case Create(_, _, _, _, _, _, _) => CreateStores(db, op);
    case UpdateName(_, _, _, _) => NameStores(db, op);
    case SetPassword(_, _, _, _) => PasswordStores(db, op);
    case SetPermissions(_, _, _, _) => PermissionsStore(db, op);
    case SetActive(_, _, _, _) => ActiveStores(db, op);
    case Bind(_, _, _, _) => BindStores(db, op);
    case CreateLink(_, _, _, _, _) => LinkStores(db, op);
    case Redeem(_, _, _, _, _) => RedeemStores(db, op);
  }

  ghost predicate Writes(ops: seq<Op>, n: nat, u: Uuid, c: Column) {
    Effective(ops, n) && UserOf(At(ops, n), ops[n]) == Some(u) && Given(ops[n], c).Some?
  }

  /** Of the operations before n, k was the last to write the column. */
  ghost predicate LastWrites(ops: seq<Op>, k: nat, n: nat, u: Uuid, c: Column) {
    k < n && Writes(ops, k, u, c) && forall j :: k < j < n ==> !Writes(ops, j, u, c)
  }

  lemma StepWrites(ops: seq<Op>, n: nat, u: Uuid, c: Column)
    requires n < |ops| && u in At(ops, n + 1).users
    ensures Writes(ops, n, u, c) ==> Given(ops[n], c) == Some(CellOf(At(ops, n + 1).users[u], c))
    ensures !Writes(ops, n, u, c) ==>
              u in At(ops, n).users && CellOf(At(ops, n + 1).users[u], c) == CellOf(At(ops, n).users[u], c)
  {
    hide At, Given, CellOf, UserOf, Apply;
    AtNext(ops, n);
    if Effective(ops, n) {
      Gives(At(ops, n), ops[n], u, c);
    }
  }

  lemma StartsEmpty(ops: seq<Op>)
    ensures At(ops, 0) == EMPTY
  {
  }

  /** In every state of every run each cell of a user is what the last operation to write it was asked to write. */
  lemma {:induction false} CellIsLastWritten(ops: seq<Op>, n: nat, u: Uuid, c: Column)
    requires n <= |ops| && u in At(ops, n).users
    ensures exists k: nat :: LastWrites(ops, k, n, u, c) && Given(ops[k], c) == Some(CellOf(At(ops, n).users[u], c))
    decreases n
  {
    hide At, Given, CellOf, Writes;
    if n == 0 {
      StartsEmpty(ops);
    } else {
      StepWrites(ops, n - 1, u, c);
      if Writes(ops, n - 1, u, c) {
        assert LastWrites(ops, n - 1, n, u, c);
      } else {
        CellIsLastWritten(ops, n - 1, u, c);
        var k: nat :| LastWrites(ops, k, n - 1, u, c)
            && Given(ops[k], c) == Some(CellOf(At(ops, n - 1).users[u], c));
        assert LastWrites(ops, k, n, u, c);
      }
    }
  }

  /** So a permission is held exactly when the last list of that user, or the role it was created with, grants it. */
  lemma HoldsPermissionIff(ops: seq<Op>, n: nat, u: Uuid, p: string)
    requires n <= |ops| && u in At(ops, n).users
    ensures exists k: nat ::
              && LastWrites(ops, k, n, u, PermissionsColumn)
              && (p in At(ops, n).users[u].permissions <==>
                    match ops[k]
                    case SetPermissions(_, ps, _, _) => p in ps
                    case Create(_, _, _, _, role, _, _) =>
                      p == "ORDER_READ_ASSIGNED" || (role.Admin? && p in ALL_PERMISSIONS)
                    case _ => false)
  {
    hide At, UserOf;
    CellIsLastWritten(ops, n, u, PermissionsColumn);
    var k: nat :| LastWrites(ops, k, n, u, PermissionsColumn)
        && Given(ops[k], PermissionsColumn) == Some(CellOf(At(ops, n).users[u], PermissionsColumn));
    assert LastWrites(ops, k, n, u, PermissionsColumn);
  }

  // ---------- One user per login ----------

  /** Every login matches the pattern, so it is plain ASCII, and belongs to one user. */
  ghost predicate LoginsAreKept(db: Db) {
    && (forall u :: u in db.users ==> ValidLogin(db.users[u].login))
    && (forall u, v :: u in db.users && v in db.users && u != v ==> db.users[u].login != db.users[v].login)
  }

  lemma StepKeepsLogins(db: Db, op: Op)
    requires LoginsAreKept(db)
    ensures LoginsAreKept(Apply(db, op).db)
  {
    hide Apply, HeldByAnother, Distinct, ValidLogin;
    if TakesEffect(db, op) {
      match op
      case Create(_, _, _, _, _, _, _) => CreateStores(db, op);
      case UpdateName(_, _, _, _) => NameStores(db, op);
      case SetPassword(_, _, _, _) => PasswordStores(db, op);
      case SetPermissions(_, _, _, _) => PermissionsStore(db, op);
      case SetActive(_, _, _, _) => ActiveStores(db, op);
      case Bind(_, _, _, _) => BindStores(db, op);
      case CreateLink(_, _, _, _, _) => LinkStores(db, op);
      case Redeem(_, _, _, _, _) => RedeemStores(db, op);
    }
  }

  /** On every run every login is well formed and no two users have the same. */
  lemma {:induction false} LoginsAreUnique(ops: seq<Op>)
    ensures LoginsAreKept(Run(EMPTY, ops))
  {
    if ops != [] {
      hide Apply, LoginsAreKept;
      LoginsAreUnique(ops[..|ops| - 1]);
      StepKeepsLogins(Run(EMPTY, ops[..|ops| - 1]), ops[|ops| - 1]);
    } else {
      assert LoginsAreKept(EMPTY);
    }
  }

  // ---------- The life of a link ----------

  /** The link of this token, made by operation m, was not redeemed by an operation before n. */
  ghost predicate Unredeemed(ops: seq<Op>, m: nat, n: nat) {
    && m < n <= |ops| && ops[m].CreateLink? && Effective(ops, m)
    && forall k :: m < k < n && ops[k].Redeem? && ops[k].token == ops[m].token ==> !Effective(ops, k)
  }

  lemma StepKeepsLink(db: Db, op: Op, token: nat)
    requires token in db.tokens && db.tokens[token].user in db.users
    requires op.Redeem? && op.token == token ==> !TakesEffect(db, op)
    ensures var t := Apply(db, op).db;
            token in t.tokens && t.tokens[token] == db.tokens[token] && t.tokens[token].user in t.users
  {
    hide Apply, HeldByAnother, Distinct;
    if TakesEffect(db, op) {
      match op
      case Create(_, _, _, _, _, _, _) => CreateStores(db, op);
      case UpdateName(_, _, _, _) => NameStores(db, op);
      case SetPassword(_, _, _, _) => PasswordStores(db, op);
      case SetPermissions(_, _, _, _) => PermissionsStore(db, op);
      case SetActive(_, _, _, _) => ActiveStores(db, op);
      case Bind(_, _, _, _) => BindStores(db, op);
      case CreateLink(_, _, _, _, _) => LinkStores(db, op);
      case Redeem(_, _, _, _, _) => RedeemStores(db, op);
    }
  }

  lemma {:induction false} LinkStays(ops: seq<Op>, m: nat, n: nat)
    requires Unredeemed(ops, m, n)
    ensures var link, db := ops[m], At(ops, n);
            && link.token in db.tokens && link.id in db.users
            && db.tokens[link.token] == Token(link.id, link.now + Lifetime(link.asked), None)
    decreases n
  {
    hide At, TakesEffect, Lifetime, Apply;
    AtNext(ops, n - 1);
    if n == m + 1 {
      LinkStores(At(ops, m), ops[m]);
    } else {
      LinkStays(ops, m, n - 1);
      StepKeepsLink(At(ops, n - 1), ops[n - 1], ops[m].token);
    }
  }

  /**
   * A link made at t0 and not redeemed since binds its user, spending itself, exactly while the time
   * is before t0 plus the seconds asked for, 900 if none were; the Telegram id must not be zero nor
   * belong to another user, and the transaction must be durable.
   */
  lemma LinkBindsIff(ops: seq<Op>, m: nat, n: nat)
    requires n < |ops| && Unredeemed(ops, m, n) && ops[n].Redeem? && ops[n].token == ops[m].token
    ensures var link, op, a, b := ops[m], ops[n], At(ops, n), At(ops, n + 1);
            var length := if link.asked == 0 then 900 else link.asked;
            && link.id in a.users
            && (Effective(ops, n) <==> && op.now < link.now + length && op.telegramId != 0 && op.ending.Durable()
                                       && !HeldByAnother(a, link.id, op.telegramId))
            && (Effective(ops, n) ==>
                  && b.users == a.users[link.id := a.users[link.id].(telegram := Some(op.telegramId))]
                  && op.token in a.tokens
                     && b.tokens == a.tokens[op.token := a.tokens[op.token].(usedAt := Some(op.now))])
  {
    hide At, Apply, HeldByAnother;
    LinkStays(ops, m, n);
    AtNext(ops, n);
    RedeemStores(At(ops, n), ops[n]);
  }
}

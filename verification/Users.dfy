/**
 * Users and their Telegram link tokens on values: the tables of migrations/users, the transactions
 * of internal/user/repository/postgres.go and the checks of internal/user/app/service.go.
 */
module Users {
  import opened Prelude
  import opened Events

  datatype Role = Admin | Performer

  datatype User = User(
    id: Uuid,
    login: string,
    hash: string,
    fullName: string,
    role: Role,
    active: bool,
    telegram: Option<int>,
    permissions: set<string>)

  /** A row of telegram_link_tokens; times are in seconds. */
  datatype Token = Token(user: Uuid, expiresAt: int, usedAt: Option<int>)

  datatype Db = Db(users: map<Uuid, User>, tokens: map<nat, Token>, outbox: seq<Envelope>)

  const EMPTY: Db := Db(map[], map[], [])

  datatype Outcome = Outcome(db: Db, error: Option<Error>)

  // ---------- internal/user/domain/user.go ----------

  const ALL_PERMISSIONS: seq<string> := [
    "USER_READ", "USER_CREATE", "USER_UPDATE", "USER_DISABLE", "ORDER_READ_ASSIGNED",
    "ORDER_READ_ALL", "ORDER_CREATE", "ORDER_UPDATE", "ORDER_CHANGE_STATUS", "ORDER_HISTORY_READ"]

  predicate IsAlphanumeric(c: char) {
    'a' <= c <= 'z' || 'A' <= c <= 'Z' || '0' <= c <= '9'
  }

  /** ^[a-zA-Z0-9][a-zA-Z0-9._-]{2,63}$ */
  predicate ValidLogin(login: string) {
    && 3 <= |login| <= 64
    && IsAlphanumeric(login[0])
    && forall i :: 1 <= i < |login| ==> IsAlphanumeric(login[i]) || login[i] in ['.', '_', '-']
  }

  predicate ValidPermissions(ps: seq<string>) {
    forall i :: 0 <= i < |ps| ==> ps[i] in ALL_PERMISSIONS
  }

  function DefaultPermissions(role: Role): seq<string> {
    if role.Admin? then ALL_PERMISSIONS else ["ORDER_READ_ASSIGNED"]
  }

  /** The rows of user_permissions a list of codes makes. */
  function CodesOf(ps: seq<string>): set<string> {
    set p | p in ps
  }

  // ---------- Events ----------

  /** The payload of a user event: user_id and whichever of the two columns the mutation carries. */
  function Payload(id: Uuid, telegram: Json, active: Json): Data {
    Object(Id(id), telegram, active, Absent, Absent)
  }

  function About(id: Uuid): Data {
    Payload(id, Absent, Absent)
  }

  function TelegramJson(t: Option<int>): Json {
    if t.None? then Null else Number(t.value)
  }

  /** The end of a transaction: the outbox row, then the commit. */
  function Close(db: Db, written: Db, eventId: Uuid, eventType: string, id: Uuid, data: Data, ending: Ending): Outcome {
    var closed := written.(outbox := written.outbox + [Envelope(eventId, eventType, id, data)]);
    match ending
    case Committed => Outcome(closed, None)
    case AckLost => Outcome(closed, Some(Database))
    case Aborted => Outcome(db, Some(Database))
  }

  // ---------- Transactions ----------

  function Find(db: Db, id: Uuid): Option<User> {
    if id in db.users then Some(db.users[id]) else None
  }

  /** The UNIQUE constraint on telegram_id. */
  predicate TelegramTaken(db: Db, id: Uuid, telegramId: int) {
    exists u :: u in db.users && u != id && db.users[u].telegram == Some(telegramId)
  }

  predicate LoginTaken(db: Db, login: string) {
    exists u :: u in db.users && db.users[u].login == login
  }

  /** The INSERT does not list telegram_id, so the stored user starts unbound whatever `u` says. */
  function CreateTx(db: Db, u: User, permissions: seq<string>, eventId: Uuid, ending: Ending): Outcome {
    if u.id in db.users || LoginTaken(db, u.login) || !Distinct(permissions) then Outcome(db, Some(Database))
    else
      var row := u.(telegram := None, permissions := CodesOf(permissions));
      Close(db, db.(users := db.users[u.id := row]), eventId, "user.created", u.id,
            Payload(u.id, TelegramJson(u.telegram), Bool(u.active)), ending)
  }

  function MutateTx(db: Db, id: Uuid, row: User, eventId: Uuid, eventType: string, data: Data,
      ending: Ending): Outcome {
    if id !in db.users then Outcome(db, Some(NotFound))
    else Close(db, db.(users := db.users[id := row]), eventId, eventType, id, data, ending)
  }

  function Row(db: Db, id: Uuid): User {
    if id in db.users then db.users[id] else User(id, "", "", "", Performer, false, None, {})
  }

  function UpdateNameTx(db: Db, id: Uuid, name: string, eventId: Uuid, ending: Ending): Outcome {
    MutateTx(db, id, Row(db, id).(fullName := name), eventId, "user.updated", About(id), ending)
  }

  function PasswordTx(db: Db, id: Uuid, hash: string, eventId: Uuid, ending: Ending): Outcome {
    MutateTx(db, id, Row(db, id).(hash := hash), eventId, "user.updated", About(id), ending)
  }

  function SetPermissionsTx(db: Db, id: Uuid, ps: seq<string>, eventId: Uuid, ending: Ending): Outcome {
    if id in db.users && !Distinct(ps) then Outcome(db, Some(Database))
    else MutateTx(db, id, Row(db, id).(permissions := CodesOf(ps)), eventId, "user.updated", About(id), ending)
  }

  function SetActiveTx(db: Db, id: Uuid, active: bool, eventId: Uuid, ending: Ending): Outcome {
    MutateTx(db, id, Row(db, id).(active := active), eventId, if active then "user.updated" else "user.disabled",
             Payload(id, Absent, Bool(active)), ending)
  }

  function BindTx(db: Db, id: Uuid, telegramId: int, eventId: Uuid, ending: Ending): Outcome {
    if id in db.users && TelegramTaken(db, id, telegramId) then Outcome(db, Some(Conflict))
    else
      MutateTx(db, id, Row(db, id).(telegram := Some(telegramId)), eventId, "user.telegram_bound",
               Payload(id, Number(telegramId), Absent), ending)
  }

  const MINUTE: int := 60
  const DAY: int := 24 * 60 * 60
  const DEFAULT_VALIDITY: int := 15 * 60

  function Validity(asked: int): int {
    if asked == 0 then DEFAULT_VALIDITY else asked
  }

  /** CreateTelegramLink: `hash` stands for the digest of a fresh random token, `asked` for expires_in_seconds. */
  function CreateLinkOp(db: Db, hash: nat, user: Uuid, asked: int, now: int, ending: Ending): Outcome {
    if user == NIL || Validity(asked) < MINUTE || Validity(asked) > DAY then Outcome(db, Some(Validation))
    else if hash in db.tokens || user !in db.users || ending.Aborted? then Outcome(db, Some(Database))
    else
      Outcome(db.(tokens := db.tokens[hash := Token(user, now + Validity(asked), None)]),
              if ending.Committed? then None else Some(Database))
  }

  predicate Redeemable(db: Db, hash: nat, now: int) {
    hash in db.tokens && db.tokens[hash].usedAt.None? && db.tokens[hash].expiresAt > now
  }

  /**
   * RedeemTelegramLink; `now` is the start time of its transaction, and the row lock makes
   * redemptions of a token take turns.
   */
  function RedeemTx(db: Db, hash: nat, telegramId: int, now: int, eventId: Uuid, ending: Ending): Outcome {
    if !Redeemable(db, hash, now) then Outcome(db, Some(NotFound))
    else
      var token := db.tokens[hash];
      if token.user !in db.users then Outcome(db, Some(NotFound))
      else if TelegramTaken(db, token.user, telegramId) then Outcome(db, Some(Conflict))
      else
        Close(
          db,
          db.(users := db.users[token.user := db.users[token.user].(telegram := Some(telegramId))],
              tokens := db.tokens[hash := token.(usedAt := Some(now))]),
          eventId, "user.telegram_bound", token.user, Payload(token.user, Number(telegramId), Absent), ending)
  }

  // ---------- Operations of the service ----------

  datatype Op =
    | Create(id: Uuid, login: string, hash: string, fullName: string, role: Role, eventId: Uuid, ending: Ending)
    | UpdateName(id: Uuid, name: string, eventId: Uuid, ending: Ending)
    | SetPassword(id: Uuid, hash: string, eventId: Uuid, ending: Ending)
    | SetPermissions(id: Uuid, permissions: seq<string>, eventId: Uuid, ending: Ending)
    | SetActive(id: Uuid, active: bool, eventId: Uuid, ending: Ending)
    | Bind(id: Uuid, telegramId: int, eventId: Uuid, ending: Ending)
    | CreateLink(token: nat, id: Uuid, asked: int, now: int, ending: Ending)
    | Redeem(token: nat, telegramId: int, now: int, eventId: Uuid, ending: Ending)

  /**
   * Service.Create, of a trimmed login and name, makes an active, unbound user with the default
   * permissions of its role; uuid.New is never NIL.
   */
  function CreateOp(db: Db, id: Uuid, login: string, hash: string, fullName: string, role: Role, eventId: Uuid,
      ending: Ending): Outcome {
    if !ValidLogin(login) || fullName == "" then Outcome(db, Some(Validation))
    else if id == NIL then Outcome(db, Some(Database))
    else CreateTx(db, User(id, login, hash, fullName, role, true, None, {}), DefaultPermissions(role), eventId, ending)
  }

  function Apply(db: Db, op: Op): Outcome {
    match op
    case Create(id, login, hash, fullName, role, e, ending) => CreateOp(db, id, login, hash, fullName, role, e, ending)
    case UpdateName(id, name, e, ending) => UpdateNameTx(db, id, name, e, ending)
    case SetPassword(id, hash, e, ending) => PasswordTx(db, id, hash, e, ending)
    case SetPermissions(id, ps, e, ending) =>
      if ValidPermissions(ps) then SetPermissionsTx(db, id, ps, e, ending) else Outcome(db, Some(Validation))
    case SetActive(id, active, e, ending) => SetActiveTx(db, id, active, e, ending)
    case Bind(id, telegramId, e, ending) =>
      if telegramId == 0 then Outcome(db, Some(Validation)) else BindTx(db, id, telegramId, e, ending)
    case CreateLink(hash, id, asked, now, ending) => CreateLinkOp(db, hash, id, asked, now, ending)
    case Redeem(hash, telegramId, now, e, ending) =>
      if telegramId == 0 then Outcome(db, Some(Validation)) else RedeemTx(db, hash, telegramId, now, e, ending)
  }

  function Run(db: Db, ops: seq<Op>): Db {
    if ops == [] then db else Apply(Run(db, ops[..|ops| - 1]), ops[|ops| - 1]).db
  }

  // ---------- One account per Telegram id ----------

  ghost predicate Injective(db: Db) {
    forall u, v :: u in db.users && v in db.users && u != v && db.users[u].telegram.Some? ==>
      db.users[u].telegram != db.users[v].telegram
  }

  ghost predicate WellKept(db: Db) {
    && Injective(db)
    && (forall u :: u in db.users ==> u != NIL && db.users[u].id == u)
    && (forall h :: h in db.tokens ==> db.tokens[h].user in db.users)
    // a token that was used was used before it expired
    && (forall h :: h in db.tokens && db.tokens[h].usedAt.Some? ==> db.tokens[h].usedAt.value < db.tokens[h].expiresAt)
  }

  lemma RedeemKeeps(db: Db, hash: nat, telegramId: int, now: int, e: Uuid, ending: Ending)
    requires WellKept(db)
    ensures WellKept(RedeemTx(db, hash, telegramId, now, e, ending).db)
  {
  }

  lemma BindKeeps(db: Db, id: Uuid, telegramId: int, e: Uuid, ending: Ending)
    requires WellKept(db)
    ensures WellKept(BindTx(db, id, telegramId, e, ending).db)
  {
  }

  lemma MutateKeeps(db: Db, id: Uuid, row: User, e: Uuid, eventType: string, data: Data, ending: Ending)
    requires WellKept(db)
    requires id in db.users ==> row.id == id && row.telegram == db.users[id].telegram
    ensures WellKept(MutateTx(db, id, row, e, eventType, data, ending).db)
  {
  }

  lemma CreateKeeps(db: Db, u: User, ps: seq<string>, e: Uuid, ending: Ending)
    requires WellKept(db) && u.id != NIL
    ensures WellKept(CreateTx(db, u, ps, e, ending).db)
  {
  }

  lemma LinkKeeps(db: Db, hash: nat, user: Uuid, asked: int, now: int, ending: Ending)
    requires WellKept(db)
    ensures WellKept(CreateLinkOp(db, hash, user, asked, now, ending).db)
  {
  }

  lemma ApplyKeeps(db: Db, op: Op)
    requires WellKept(db)
    ensures WellKept(Apply(db, op).db)
  {
    match op
    case Create(id, login, hash, fullName, role, e, ending) =>
      if id != NIL {
        CreateKeeps(db, User(id, login, hash, fullName, role, true, None, {}), DefaultPermissions(role), e, ending);
      }
    case UpdateName(id, name, e, ending) =>
      MutateKeeps(db, id, Row(db, id).(fullName := name), e, "user.updated", About(id), ending);
    case SetPassword(id, hash, e, ending) =>
      MutateKeeps(db, id, Row(db, id).(hash := hash), e, "user.updated", About(id), ending);
    case SetPermissions(id, ps, e, ending) =>
      MutateKeeps(db, id, Row(db, id).(permissions := CodesOf(ps)), e, "user.updated", About(id), ending);
    case SetActive(id, active, e, ending) =>
      MutateKeeps(db, id, Row(db, id).(active := active), e, if active then "user.updated" else "user.disabled",
                  Payload(id, Absent, Bool(active)), ending);
    case Bind(id, telegramId, e, ending) => BindKeeps(db, id, telegramId, e, ending);
    case CreateLink(hash, id, asked, now, ending) => LinkKeeps(db, hash, id, asked, now, ending);
    case Redeem(hash, telegramId, now, e, ending) => RedeemKeeps(db, hash, telegramId, now, e, ending);
  }

  /** On every run a Telegram id belongs to one user at most, and used tokens were used in time. */
  lemma {:induction false} RunIsWellKept(ops: seq<Op>)
    ensures WellKept(Run(EMPTY, ops))
  {
    if ops != [] {
      RunIsWellKept(ops[..|ops| - 1]);
      ApplyKeeps(Run(EMPTY, ops[..|ops| - 1]), ops[|ops| - 1]);
    }
  }

  // ---------- Link tokens ----------

  predicate Redeemed(db: Db, op: Op) {
    op.Redeem? && Apply(db, op).db != db
  }

  /** A redemption either binds its user, spends its token and emits one event, or leaves everything as it was. */
  lemma RedemptionIsAllOrNothing(db: Db, op: Op)
    requires op.Redeem?
    ensures var t := Apply(db, op).db;
            if Redeemed(db, op) then
              && Redeemable(db, op.token, op.now)
              && var user := db.tokens[op.token].user;
                 && user in db.users && !TelegramTaken(db, user, op.telegramId)
                 && t.users == db.users[user := db.users[user].(telegram := Some(op.telegramId))]
                 && t.tokens == db.tokens[op.token := db.tokens[op.token].(usedAt := Some(op.now))]
                 && |t.outbox| == |db.outbox| + 1
            else t == db
  {
  }

  lemma {:induction false} SpentStaysSpent(db: Db, ops: seq<Op>, hash: nat)
    requires hash in db.tokens && db.tokens[hash].usedAt.Some?
    ensures hash in Run(db, ops).tokens && Run(db, ops).tokens[hash] == db.tokens[hash]
  {
    if ops != [] {
      SpentStaysSpent(db, ops[..|ops| - 1], hash);
    }
  }

  lemma {:induction false} RunSplits(db: Db, ops: seq<Op>, n: nat)
    requires n <= |ops|
    ensures Run(db, ops) == Run(Run(db, ops[..n]), ops[n..])
    decreases |ops|
  {
    if n < |ops| {
      var init := ops[..|ops| - 1];
      RunSplits(db, init, n);
      assert init[..n] == ops[..n];
      assert ops[n..][..|ops[n..]| - 1] == init[n..];
    } else {
      assert ops[..n] == ops && ops[n..] == [];
    }
  }

  /** Over all concurrent redemptions, a link token produces at most one binding. */
  lemma TokenRedeemedOnce(ops: seq<Op>, m: nat, n: nat)
    requires m < n < |ops| && ops[m].Redeem? && ops[n].Redeem? && ops[m].token == ops[n].token
    requires Redeemed(Run(EMPTY, ops[..m]), ops[m])
    ensures !Redeemed(Run(EMPTY, ops[..n]), ops[n])
  {
    var db := Run(EMPTY, ops[..m + 1]);
    assert ops[..m + 1][..m] == ops[..m];
    hide Run;
    RedemptionIsAllOrNothing(Run(EMPTY, ops[..m]), ops[m]);
    RunSplits(EMPTY, ops[..n], m + 1);
    assert ops[..n][..m + 1] == ops[..m + 1];
    SpentStaysSpent(db, ops[..n][m + 1..], ops[m].token);
  }
}

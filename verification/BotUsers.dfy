/** New users through the bot: the draft holds each answer in its field, can be completed, and becomes that user. */
module BotUsers {
  import opened Prelude
  import opened BotText
  import opened Bot
  import opened BotCommands
  import O = Orders
  import U = Users
  import UE = UserEffects

  // ---------- A draft is its answers ----------

  const STEPS: seq<Step> := [LoginStep, FullNameStep, RoleStep, ConfirmStep]

  /** The draft of a new user after these answers: login, full name, role. */
  function DraftOf(texts: seq<string>): Draft
    requires |texts| <= 3
  {
    Draft(UserKind, STEPS[|texts|],
          if |texts| > 0 then texts[0] else "", if |texts| > 1 then texts[1] else "",
          if |texts| > 2 then Lower(texts[2]) else "", NIL, 0, "", "", "", "", "", "", "", [])
  }

  predicate IsRole(text: string) {
    Lower(text) == "admin" || Lower(text) == "performer"
  }

  lemma BlankIsDraft()
    ensures Blank(UserKind, LoginStep) == DraftOf([])
  {
  }

  /** One more answer goes to the field it was asked for; a third that is no role is refused. */
  lemma AnswerIsHeld(texts: seq<string>, text: string, w: World)
    requires |texts| < 3
    ensures Answer(DraftOf(texts), text, w)
         == if |texts| == 2 && !IsRole(text) then None else Some(DraftOf(texts + [text]))
  {
    hide Lower;
    var all := texts + [text];
    assert forall i: nat :: i < |texts| ==> all[i] == texts[i];
  }

  lemma AnswerIsRead(texts: seq<string>, text: string, w: World)
    requires |texts| < 3 && Trim(text) == text != "/cancel" && (|texts| == 2 ==> IsRole(text))
    requires w.loaded && w.stored.Durable()
    ensures Next(Some(DraftOf(texts)), Received(text, w)) == Some(DraftOf(texts + [text]))
  {
    hide Trim, Lower, Answer;
    AnswerIsHeld(texts, text, w);
  }

  lemma {:induction false} AnswersAreTaken(texts: seq<string>, w: World)
    requires |texts| <= 3 && w.loaded && w.stored.Durable() && (|texts| == 3 ==> IsRole(texts[2]))
    requires forall i :: 0 <= i < |texts| ==> Trim(texts[i]) == texts[i] != "/cancel"
    ensures From(Some(Blank(UserKind, LoginStep)), Typed(texts, w)) == Some(DraftOf(texts))
  {
    hide Next, Trim, Typed, DraftOf, Lower;
    BlankIsDraft();
    if texts != [] {
      var init, last := texts[..|texts| - 1], texts[|texts| - 1];
      AnswersAreTaken(init, w);
      TypedPart(texts, w, |texts| - 1);
      AnswerIsRead(init, last, w);
      assert init + [last] == texts;
    }
  }

  /** The dialogue a permitted user opens with /newuser reaches confirm by three answers, the last a role. */
  lemma NewUserReachesConfirm(command: string, login: string, name: string, role: string, w: World)
    requires Calls(command, NEW_USER) && w.permitted && w.loaded && w.stored.Durable() && IsRole(role)
    requires forall text :: text in [login, name, role] ==> Trim(text) == text != "/cancel"
    ensures var r := Run([Received(command, w)] + Typed([login, name, role], w));
            && r.Some? && r.value.kind.UserKind? && r.value.step.ConfirmStep?
            && r.value.login == login && r.value.fullName == name && r.value.role == Lower(role)
  {
    hide Message, Trim, Typed, Lower;
    var open, texts := [Received(command, w)], [login, name, role];
    NewUserOpens(command, w);
    assert open[..0] == [];
    assert From(None, open) == Some(Blank(UserKind, LoginStep));
    FromAppend(None, open, Typed(texts, w));
    assert forall i :: 0 <= i < |texts| ==> texts[i] in [login, name, role];
    AnswersAreTaken(texts, w);
  }

  // ---------- The user a confirmed draft becomes ----------

  /** The operation a /confirm of this draft asks for, under the id and the hash the service picks. */
  function NewUser(d: Draft, id: Uuid, hash: string, eventId: Uuid, ending: Ending): U.Op {
    U.Create(id, Trim(d.login), hash, Trim(d.fullName), if d.role == "admin" then U.Admin else U.Performer, eventId,
        ending)
  }

  /** It is created exactly when the login is well formed and free, the name not blank, and the transaction durable. */
  lemma ConfirmedUserIsCreatedIff(db: U.Db, d: Draft, id: Uuid, hash: string, eventId: Uuid, ending: Ending)
    requires Sensible(d) && d.kind.UserKind? && d.step.ConfirmStep? && id != NIL && id !in db.users
    ensures var t := U.Apply(db, NewUser(d, id, hash, eventId, ending)).db;
            && (t != db <==> && U.ValidLogin(Trim(d.login)) && Trim(d.fullName) != "" && ending.Durable()
                             && forall u :: u in db.users ==> db.users[u].login != Trim(d.login))
            && (t != db ==>
                  t.users == db.users[id := U.User(id, Trim(d.login), hash, Trim(d.fullName),
                    if d.role == "admin" then U.Admin else U.Performer, true, None,
                    if d.role == "performer" then {"ORDER_READ_ASSIGNED"} else set p | p in U.ALL_PERMISSIONS)])
  {
    hide Trim, U.ValidLogin, U.Apply;
    UE.CreateStores(db, NewUser(d, id, hash, eventId, ending));
  }

  // ---------- Naming a stored login ----------

  /** A login that matches the pattern is plain text, no command and no list, so it can be typed as it is. */
  lemma LoginIsPlain(login: string)
    requires U.ValidLogin(login)
    ensures Trim(login) == login && login != "-" && login != "/cancel" && ',' !in login
    ensures forall i :: 0 <= i < |login| ==> IsAscii(login[i]) && !O.IsSpace(login[i])
  {
    forall i | 0 <= i < |login|
      ensures IsAscii(login[i]) && !O.IsSpace(login[i]) && login[i] != ','
    {
    }
    TrimKeeps(login);
    assert !U.IsAlphanumeric("/cancel"[0]);
  }

  /**
   * Typing the login of an active performer names that performer exactly when no later active
   * performer has a login that differs only in case. The table keeps logins apart by their exact text.
   */
  lemma LoginNamesItsOwnerIff(users: seq<Listed>, k: nat)
    requires k < |users| && Assignable(users[k]) && U.ValidLogin(users[k].login)
    requires forall i, j :: 0 <= i < j < |users| ==> users[i].id != users[j].id
    ensures Resolve(Some(users), users[k].login) == Some([users[k].id])
            <==> forall j :: k < j < |users| && Assignable(users[j]) ==> Lower(users[j].login) != Lower(users[k].login)
  {
    hide Trim, Lower, Split, Resolve, U.ValidLogin, Assignable;
    var login := users[k].login;
    LoginIsPlain(login);
    SplitNowhere(login, ',');
    ResolvedArePerformers(users, login);
    assert Known(users, Lower(login));
    assert Split(login, ',') == [login] && AllKnown(users, [login]);
    var ids := Resolve(Some(users), login).value;
    assert Denotes(users, Lower(Trim([login][0])), ids[0]);
    var m :| 0 <= m < |users| && Owns(users, m, Lower(login)) && users[m].id == ids[0];
    assert ids == [ids[0]];
  }

  lemma BothAreStored(hash: string)
    ensures var ops := [U.Create(1, "Ann", hash, "Ann", U.Performer, 1, Committed),
                        U.Create(2, "ann", hash, "Ann", U.Performer, 2, Committed)];
            var users := U.Run(U.EMPTY, ops).users;
            1 in users && users[1].login == "Ann" && 2 in users && users[2].login == "ann"
  {
    hide U.Apply;
    var a, b := U.Create(1, "Ann", hash, "Ann", U.Performer, 1, Committed),
                U.Create(2, "ann", hash, "Ann", U.Performer, 2, Committed);
    assert "Ann"[0] != "ann"[0];
    assert U.ValidLogin("Ann") && U.ValidLogin("ann");
    hide U.ValidLogin;
    assert [a, b][..1] == [a] && [a][..0] == [];
    UE.CreateStores(U.EMPTY, a);
    UE.CreateStores(U.Apply(U.EMPTY, a).db, b);
    assert U.Run(U.EMPTY, [a]) == U.Apply(U.EMPTY, a).db;
    assert U.Run(U.EMPTY, [a, b]) == U.Apply(U.Run(U.EMPTY, [a]), b).db;
  }

  /** Two users with such logins can both be stored, and the one listed later is the one that is named. */
  lemma LoginsCanFoldTogether(hash: string)
    ensures var ops := [U.Create(1, "Ann", hash, "Ann", U.Performer, 1, Committed),
                        U.Create(2, "ann", hash, "Ann", U.Performer, 2, Committed)];
            var users := U.Run(U.EMPTY, ops).users;
            && 1 in users && users[1].login == "Ann" && 2 in users && users[2].login == "ann"
            && Resolve(Some([Listed(1, "Ann", true, true), Listed(2, "ann", true, true)]), "Ann") != Some([1])
  {
    hide Trim, Split, Resolve, U.Run, U.Apply;
    BothAreStored(hash);
    var users := [Listed(1, "Ann", true, true), Listed(2, "ann", true, true)];
    assert Lower("Ann") == "ann" == Lower("ann");
    assert U.ValidLogin("Ann");
    LoginNamesItsOwnerIff(users, 0);
    assert Assignable(users[1]);
  }
}

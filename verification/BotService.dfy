/**
 * internal/bot/service.go and the draft store of internal/bot/draft.go over mutable state, proved
 * against the dialogues of Bot.
 */
module BotService {
  import opened Prelude
  import opened Calendar
  import opened BotText
  import opened Bot
  import opened Conversations

  /** The keyed store: one draft for each Telegram user. */
  class DraftStore {
    var drafts: map<int, Draft>

    constructor ()
      ensures drafts == map[]
    {
      drafts := map[];
    }

    method Load(user: int) returns (draft: Option<Draft>)
      ensures draft == Held(drafts, user)
    {
      if user in drafts {
        draft := Some(drafts[user]);
      } else {
        draft := None;
      }
    }

    method Save(user: int, draft: Draft, ending: Ending)
      modifies this
      ensures drafts == Holding(old(drafts), user, After(Held(old(drafts), user), Some(draft), ending))
    {
      if !ending.Aborted? {
        drafts := drafts[user := draft];
      }
    }

    /** The drafts of these users reach the end of their thirty minutes. */
    method Expire(users: set<int>)
      modifies this
      ensures drafts == old(drafts) - users
    {
      drafts := drafts - users;
    }

    method Delete(user: int, ending: Ending)
      modifies this
      ensures drafts == Holding(old(drafts), user, After(Held(old(drafts), user), None, ending))
    {
      if !ending.Aborted? {
        drafts := drafts - {user};
      }
    }
  }

  lemma LookUpFails(byLogin: map<string, Uuid>, names: seq<string>, i: nat)
    requires i < |names| && Lower(Trim(names[i])) !in byLogin
    ensures LookUp(byLogin, names).None?
  {
    LookUpIsPointwise(byLogin, names);
  }

  /** The updates of the replies that arrived. */
  function Arrived(replies: seq<Option<seq<Turn>>>): seq<Turn> {
    if replies == [] then []
    else
      var last := replies[|replies| - 1];
      Arrived(replies[..|replies| - 1]) + if last.Some? then last.value else []
  }

  function Updates(ts: seq<Turn>): (us: seq<Update>)
    ensures |us| == |ts|
  {
    seq(|ts|, i requires 0 <= i < |ts| => ts[i].update)
  }

  lemma {:induction false} DraftsAppend(drafts: map<int, Draft>, xs: seq<Turn>, ys: seq<Turn>)
    ensures Drafts(drafts, xs + ys) == Drafts(Drafts(drafts, xs), ys)
    decreases |ys|
  {
    if ys == [] {
      assert xs + ys == xs;
    } else {
      assert (xs + ys)[..|xs + ys| - 1] == xs + ys[..|ys| - 1];
      DraftsAppend(drafts, xs, ys[..|ys| - 1]);
    }
  }

  lemma UpdatesAppend(xs: seq<Turn>, ys: seq<Turn>)
    ensures Updates(xs + ys) == Updates(xs) + Updates(ys)
    ensures forall offset: nat ::
        OffsetAfter(offset, Updates(xs + ys)) == OffsetAfter(OffsetAfter(offset, Updates(xs)), Updates(ys))
  {
  }

  class Service {
    const store: DraftStore
    var offset: nat

    constructor (store: DraftStore)
      ensures this.store == store && offset == 0
    {
      this.store := store;
      offset := 0;
    }

    /** The update loop over the replies it gets; None stands for a poll that failed. */
    method Run(replies: seq<Option<seq<Turn>>>)
      requires this as object != store
      modifies this, store
      ensures store.drafts == Drafts(old(store.drafts), Arrived(replies))
      ensures offset == OffsetAfter(old(offset), Updates(Arrived(replies)))
    {
      for n := 0 to |replies|
        invariant store.drafts == Drafts(old(store.drafts), Arrived(replies[..n]))
        invariant offset == OffsetAfter(old(offset), Updates(Arrived(replies[..n])))
      {
        assert replies[..n + 1][..n] == replies[..n];
        if replies[n].Some? {
          HandleReply(replies[n].value);
          DraftsAppend(old(store.drafts), Arrived(replies[..n]), replies[n].value);
          UpdatesAppend(Arrived(replies[..n]), replies[n].value);
        } else {
          assert Arrived(replies[..n + 1]) == Arrived(replies[..n]);
        }
      }
      assert replies[..|replies|] == replies;
    }

    /** The updates of one reply. */
    method HandleReply(turns: seq<Turn>)
      requires this as object != store
      modifies this, store
      ensures store.drafts == Drafts(old(store.drafts), turns)
      ensures offset == OffsetAfter(old(offset), Updates(turns))
    {
      for i := 0 to |turns|
        invariant store.drafts == Drafts(old(store.drafts), turns[..i])
        invariant offset == OffsetAfter(old(offset), Updates(turns[..i]))
      {
        var update := turns[i].update;
        assert turns[..i + 1][..i] == turns[..i];
        store.Expire(turns[i].expired);
        offset := update.id + 1;
        if update.text == "" || update.from == 0 {
          continue;
        }
        Handle(update.from, update.text, turns[i].world);
      }
      assert turns[..|turns|] == turns;
    }

    method Handle(user: int, raw: string, w: World)
      modifies store
      ensures store.drafts == Holding(old(store.drafts), user, Message(Held(old(store.drafts), user), raw, w))
    {
      var text := Trim(raw);
      if text == "/cancel" {
        store.Delete(user, w.stored);
        return;
      }
      if !w.loaded {
        return;
      }
      var draft := store.Load(user);
      if draft.Some? {
        HandleDraft(user, text, draft.value, w);
        return;
      }
      var parts := Fields(text);
      if |parts| == 0 {
        return;
      }
      var name := Split(parts[0], '@')[0];
      if name == "/neworder" {
        StartDraft(user, OrderKind, DateStep, w);
      } else if name == "/newuser" {
        StartDraft(user, UserKind, LoginStep, w);
      } else if name == "/editorder" && |parts| == 2 {
        StartEditDraft(user, w);
      }
    }

    /** startDraft and startUserDraft. */
    method StartDraft(user: int, kind: Kind, step: Step, w: World)
      requires Held(store.drafts, user) == None
      modifies store
      ensures store.drafts
           == Holding(old(store.drafts), user,
               if w.permitted then After(None, Some(Blank(kind, step)), w.stored) else None)
    {
      if w.permitted {
        store.Save(user, Blank(kind, step), w.stored);
      }
    }

    method StartEditDraft(user: int, w: World)
      requires Held(store.drafts, user) == None
      modifies store
      ensures store.drafts == Holding(old(store.drafts), user, Open(EditOrder, w))
    {
      if !w.permitted || w.order.None? || !Printable(w.order.value) {
        return;
      }
      var o := w.order.value;
      var draft := Blank(EditKind, DateStep);
      draft := draft.(orderId := o.id, version := o.version, date := Format(o.date), location := o.location,
          amount := o.amount.text);
      draft := draft.(name := o.name, phone := o.phone, contact := o.contact, comment := o.comment);
      store.Save(user, draft, w.stored);
    }

    method HandleDraft(user: int, text: string, loaded: Draft, w: World)
      requires Held(store.drafts, user) == Some(loaded)
      modifies store
      ensures store.drafts == Holding(old(store.drafts), user, Bot.Handle(loaded, text, w))
    {
      if loaded.kind.UserKind? {
        HandleUserDraft(user, text, loaded, w);
        return;
      }
      if loaded.kind.EditKind? {
        HandleEditDraft(user, text, loaded, w);
        return;
      }
      if loaded.step.ConfirmStep? {
        if text == "/confirm" {
          ConfirmDraft(user, loaded, w);
        }
        return;
      }
      if text == "" {
        return;
      }
      var draft := loaded;
      match draft.step {
        case DateStep =>
          if Parse(text).None? {
            return;
          }
          draft := draft.(date := text, step := LocationStep);
        case LocationStep => draft := draft.(location := text, step := AmountStep);
        case AmountStep => draft := draft.(amount := text, step := NameStep);
        case NameStep => draft := draft.(name := text, step := PhoneStep);
        case PhoneStep => draft := draft.(phone := text, step := ContactStep);
        case ContactStep =>
          if text != "-" {
            draft := draft.(contact := text);
          }
          draft := draft.(step := CommentStep);
        case CommentStep =>
          if text != "-" {
            draft := draft.(comment := text);
          }
          draft := draft.(step := PerformersStep);
          // askPerformers lists the performers before it saves
          if w.users.None? {
            return;
          }
        case PerformersStep =>
          var ids := ResolvePerformers(text, w.users);
          if ids.None? {
            return;
          }
          draft := draft.(performers := ids.value, step := ConfirmStep);
        case _ =>
      }
      store.Save(user, draft, w.stored);
    }

    method HandleUserDraft(user: int, text: string, loaded: Draft, w: World)
      requires Held(store.drafts, user) == Some(loaded) && loaded.kind.UserKind?
      modifies store
      ensures store.drafts == Holding(old(store.drafts), user, Bot.Handle(loaded, text, w))
    {
      var draft := loaded;
      match draft.step {
        case ConfirmStep =>
          if text == "/confirm" {
            ConfirmDraft(user, draft, w);
          }
          return;
        case LoginStep => draft := draft.(login := text, step := FullNameStep);
        case FullNameStep => draft := draft.(fullName := text, step := RoleStep);
        case RoleStep =>
          var role := Lower(text);
          if role != "admin" && role != "performer" {
            return;
          }
          draft := draft.(role := role, step := ConfirmStep);
        case _ =>
      }
      store.Save(user, draft, w.stored);
    }

    method HandleEditDraft(user: int, text: string, loaded: Draft, w: World)
      requires Held(store.drafts, user) == Some(loaded) && loaded.kind.EditKind?
      modifies store
      ensures store.drafts == Holding(old(store.drafts), user, Bot.Handle(loaded, text, w))
    {
      var draft := loaded;
      var given := text != "-";
      match draft.step {
        case ConfirmStep =>
          if text == "/confirm" {
            ConfirmDraft(user, draft, w);
          }
          return;
        case DateStep =>
          if given {
            if Parse(text).None? {
              return;
            }
            draft := draft.(date := text);
          }
          draft := draft.(step := LocationStep);
        case LocationStep =>
          if given {
            draft := draft.(location := text);
          }
          draft := draft.(step := AmountStep);
        case AmountStep =>
          if given {
            draft := draft.(amount := text);
          }
          draft := draft.(step := NameStep);
        case NameStep =>
          if given {
            draft := draft.(name := text);
          }
          draft := draft.(step := PhoneStep);
        case PhoneStep =>
          if given {
            draft := draft.(phone := text);
          }
          draft := draft.(step := ContactStep);
        case ContactStep =>
          if given {
            draft := draft.(contact := text);
          }
          draft := draft.(step := CommentStep);
        case CommentStep =>
          if given {
            draft := draft.(comment := text);
          }
          draft := draft.(step := ConfirmStep);
        case _ =>
      }
      store.Save(user, draft, w.stored);
    }

    /** confirmDraft, confirmEditDraft and confirmUserDraft: the call, then the delete behind its success. */
    method ConfirmDraft(user: int, draft: Draft, w: World)
      requires Held(store.drafts, user) == Some(draft)
      modifies store
      ensures store.drafts == Holding(old(store.drafts), user, Confirm(draft, w))
    {
      if !w.permitted {
        return;
      }
      if !draft.kind.UserKind? && Parse(draft.date).None? {
        return;
      }
      if !w.called {
        return;
      }
      store.Delete(user, w.stored);
    }

    method ResolvePerformers(value: string, users: Option<seq<Listed>>) returns (ids: Option<seq<Uuid>>)
      ensures ids == Resolve(users, value)
    {
      if value == "-" {
        return Some([]);
      }
      if users.None? {
        return None;
      }
      var all := users.value;
      var byLogin: map<string, Uuid> := map[];
      for i := 0 to |all|
        invariant byLogin == ByLogin(all[..i])
      {
        assert all[..i + 1][..i] == all[..i];
        if all[i].performer && all[i].active {
          byLogin := byLogin[Lower(all[i].login) := all[i].id];
        }
      }
      assert all[..|all|] == all;
      var found: seq<Uuid> := [];
      var logins := Split(value, ',');
      for i := 0 to |logins|
        invariant LookUp(byLogin, logins[..i]) == Some(found)
      {
        assert logins[..i + 1][..i] == logins[..i];
        var key := Lower(Trim(logins[i]));
        if key !in byLogin {
          LookUpFails(byLogin, logins, i);
          return None;
        }
        found := found + [byLogin[key]];
      }
      assert logins[..|logins|] == logins;
      ids := Some(found);
    }
  }
}


/** The commands that open a dialogue, alone or addressed to the bot by name. */
module BotCommands {
  import opened Prelude
  import opened BotText
  import opened Bot
  import O = Orders

  /** A word: characters and no white space among them. */
  predicate Word(text: string) {
    text != "" && forall i :: 0 <= i < |text| ==> !O.IsSpace(text[i])
  }

  /** The command itself, or the command, '@' and the name of a bot. */
  ghost predicate Calls(text: string, command: string) {
    Word(text) && (text == command || exists bot: string :: text == command + ['@'] + bot)
  }

  const NEW_ORDER: string := "/neworder"
  const NEW_USER: string := "/newuser"
  const EDIT_ORDER: string := "/editorder"

  lemma CallIsRead(text: string, command: string)
    requires Calls(text, command) && '@' !in command
    ensures Fields(text) == [text] && Split(text, '@')[0] == command && Trim(text) == text
  {
    hide TrimLeft, TrimRight, WordsFrom, Split;
    OneWord(text, "");
    assert "" + text == text;
    TrimKeeps(text);
    if text == command {
      SplitNowhere(text, '@');
    } else {
      var bot: string :| text == command + ['@'] + bot;
      SplitAtFirst(command, bot, '@');
    }
  }

  lemma NoAt()
    ensures '@' !in NEW_ORDER && '@' !in NEW_USER && '@' !in EDIT_ORDER
  {
  }

  lemma NotCancel(text: string, command: string)
    requires Calls(text, command) && |command| > 1 && command[1] != 'c'
    ensures text != "/cancel"
  {
    assert text[1] == command[1];
    assert "/cancel"[1] == 'c';
  }

  /** /neworder from a user who may create orders opens an empty draft at its first step. */
  lemma NewOrderOpens(text: string, w: World)
    requires Calls(text, NEW_ORDER) && w.loaded && w.permitted && w.stored.Durable()
    ensures Message(None, text, w) == Some(Blank(OrderKind, DateStep))
  {
    hide Trim, Fields, Split;
    NoAt();
    CallIsRead(text, NEW_ORDER);
    NotCancel(text, NEW_ORDER);
  }

  /** /newuser from a user who may create users. */
  lemma NewUserOpens(text: string, w: World)
    requires Calls(text, NEW_USER) && w.loaded && w.permitted && w.stored.Durable()
    ensures Message(None, text, w) == Some(Blank(UserKind, LoginStep))
  {
    hide Trim, Fields, Split;
    NoAt();
    CallIsRead(text, NEW_USER);
    NotCancel(text, NEW_USER);
    assert NEW_USER[4] != NEW_ORDER[4];
  }

  lemma {:induction false} WordsOfTwo(first: string, second: string, word: string)
    requires Word(second) && word + first != "" && forall i :: 0 <= i < |first| ==> !O.IsSpace(first[i])
    ensures WordsFrom(first + [' '] + second, word) == [word + first, second]
    decreases |first|
  {
    var text := first + [' '] + second;
    if first == "" {
      assert text[1..] == second;
      OneWord(second, "");
      assert "" + second == second && word + first == word;
    } else {
      assert text[1..] == first[1..] + [' '] + second;
      assert word + [text[0]] + first[1..] == word + first;
      WordsOfTwo(first[1..], second, word + [text[0]]);
    }
  }

  lemma TwoWordsAreRead(command: string, id: string)
    requires Word(command) && Word(id)
    ensures Fields(command + [' '] + id) == [command, id] && Trim(command + [' '] + id) == command + [' '] + id
  {
    hide TrimLeft, TrimRight;
    var text := command + [' '] + id;
    WordsOfTwo(command, id, "");
    assert "" + command == command;
    assert text[0] == command[0] && text[|text| - 1] == id[|id| - 1];
    TrimKeeps(text);
  }

  /** /editorder and an id, from a user who may update orders, opens what was read of that order. */
  lemma EditOrderOpens(command: string, id: string, w: World)
    requires Calls(command, EDIT_ORDER) && Word(id) && w.loaded && w.permitted && w.stored.Durable()
    requires w.order.Some? && Printable(w.order.value)
    ensures Message(None, command + [' '] + id, w) == Some(StartEdit(w.order.value))
  {
    hide Trim, Fields, Split, StartEdit;
    NoAt();
    CallIsRead(command, EDIT_ORDER);
    TwoWordsAreRead(command, id);
    var text := command + [' '] + id;
    assert text != "/cancel" by {
      assert text[|command|] == ' ';
      assert ' ' !in "/cancel";
    }
  }

  // ---------- Nothing else opens a dialogue ----------

  lemma NameIsCalled(word: string, command: string)
    requires Word(word) && '@' !in command
    ensures Split(word, '@')[0] == command <==> Calls(word, command)
  {
    hide Split, Word;
    if Calls(word, command) {
      CallIsRead(word, command);
    }
    if Split(word, '@')[0] == command {
      SplitJoins(word, '@');
      var parts := Split(word, '@');
      if |parts| > 1 {
        assert word == command + ['@'] + Join(parts[1..], '@');
      }
    }
  }

  lemma {:induction false} WordsAreWords(text: string, word: string)
    requires forall i :: 0 <= i < |word| ==> !O.IsSpace(word[i])
    ensures forall k :: 0 <= k < |WordsFrom(text, word)| ==> Word(WordsFrom(text, word)[k])
    decreases |text|
  {
    if text != "" {
      if O.IsSpace(text[0]) {
        WordsAreWords(text[1..], "");
      } else {
        WordsAreWords(text[1..], word + [text[0]]);
      }
    }
  }

  lemma FieldsAreWords(text: string)
    ensures forall k :: 0 <= k < |Fields(text)| ==> Word(Fields(text)[k])
  {
    WordsAreWords(text, "");
  }

  /** The sender is permitted, the store answers, and the message calls this command. */
  ghost predicate Asks(raw: string, w: World, command: string) {
    && w.loaded && w.permitted && w.stored.Durable()
    && Trim(raw) != "/cancel" && Fields(Trim(raw)) != [] && Calls(Fields(Trim(raw))[0], command)
  }

  /** When no draft is open, exactly a permitted sender's calls of the three commands open one, and this one. */
  lemma OpensIff(raw: string, w: World)
    ensures var r := Message(None, raw, w);
            && (r == Some(Blank(OrderKind, DateStep)) <==> Asks(raw, w, NEW_ORDER))
            && (r == Some(Blank(UserKind, LoginStep)) <==> Asks(raw, w, NEW_USER))
            && (r.Some? && r.value.kind.EditKind?
                <==> && Asks(raw, w, EDIT_ORDER) && |Fields(Trim(raw))| == 2
                     && w.order.Some? && Printable(w.order.value))
            && (r.Some? && r.value.kind.EditKind? ==> r == Some(StartEdit(w.order.value)))
            && (r.Some? ==> r == Some(Blank(OrderKind, DateStep)) || r == Some(Blank(UserKind, LoginStep))
                            || r.value.kind.EditKind?)
  {
    hide Trim, Fields, Split, Calls;
    NoAt();
    var parts := Fields(Trim(raw));
    if parts != [] {
      FieldsAreWords(Trim(raw));
      NameIsCalled(parts[0], NEW_ORDER);
      NameIsCalled(parts[0], NEW_USER);
      NameIsCalled(parts[0], EDIT_ORDER);
    }
    assert NEW_USER[4] != NEW_ORDER[4] && NEW_USER[1] != EDIT_ORDER[1] && NEW_ORDER[1] != EDIT_ORDER[1];
  }
}

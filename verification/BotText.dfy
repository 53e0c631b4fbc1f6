/** Text handling of internal/bot/service.go: trimming, folding case, and reading a list of performers. */
module BotText {
  import opened Prelude
  import O = Orders

  function TrimLeft(s: string): (r: string)
    ensures r != "" ==> !O.IsSpace(r[0])
  {
    if s != "" && O.IsSpace(s[0]) then TrimLeft(s[1..]) else s
  }

  function TrimRight(s: string): (r: string)
    ensures r != "" ==> !O.IsSpace(r[|r| - 1])
    ensures r <= s
  {
    if s != "" && O.IsSpace(s[|s| - 1]) then TrimRight(s[..|s| - 1]) else s
  }

  /** strings.TrimSpace: what is left is empty or not blank. */
  function Trim(s: string): (r: string)
    ensures r != "" ==> !O.Blank(r)
  {
    TrimRight(TrimLeft(s))
  }

  /** A text that starts and ends outside white space stays as it is; so does every trimmed text. */
  lemma TrimKeeps(s: string)
    ensures s != "" && !O.IsSpace(s[0]) && !O.IsSpace(s[|s| - 1]) ==> Trim(s) == s
    ensures Trim(s) != "" ==> !O.IsSpace(Trim(s)[0]) && !O.IsSpace(Trim(s)[|Trim(s)| - 1])
  {
  }

  lemma {:induction false} LeftIsCut(s: string) returns (cut: string)
    ensures O.Blank(cut) && s == cut + TrimLeft(s)
  {
    if s != "" && O.IsSpace(s[0]) {
      var rest := LeftIsCut(s[1..]);
      cut := [s[0]] + rest;
    } else {
      cut := "";
    }
  }

  lemma {:induction false} RightIsCut(s: string) returns (cut: string)
    ensures O.Blank(cut) && s == TrimRight(s) + cut
  {
    if s != "" && O.IsSpace(s[|s| - 1]) {
      var init, last := s[..|s| - 1], s[|s| - 1];
      var rest := RightIsCut(init);
      cut := rest + [last];
      assert s == init + [last] && TrimRight(s) == TrimRight(init);
      hide TrimRight;
      assert s == TrimRight(s) + cut;
    } else {
      cut := "";
    }
  }

  /** Only white space is cut, at both ends, and none is left there. */
  lemma TrimCutsSpace(s: string) returns (left: string, right: string)
    ensures s == left + Trim(s) + right && O.Blank(left) && O.Blank(right)
    ensures Trim(s) != "" ==> !O.IsSpace(Trim(s)[0]) && !O.IsSpace(Trim(s)[|Trim(s)| - 1])
  {
    left := LeftIsCut(s);
    right := RightIsCut(TrimLeft(s));
    TrimKeeps(s);
  }

  // ---------- Folding case ----------

  /** unicode.ToLower on the characters it takes into ASCII: A to Z, the dotted capital I and the Kelvin sign. */
  function FoldChar(c: char): char {
    if 'A' <= c <= 'Z' then (c as int + 32) as char
    else if c == 0x130 as char then 'i'
    else if c == 0x212A as char then 'k'
    else c
  }

  predicate IsLetter(c: char) {
    'A' <= c <= 'Z' || 'a' <= c <= 'z'
  }

  /** Two ASCII characters fold together exactly when they are the same or the two cases of a letter. */
  lemma FoldsTogetherIff(a: char, b: char)
    requires a as int < 128 && b as int < 128
    ensures FoldChar(a) == FoldChar(b)
            <==> a == b || (IsLetter(a) && IsLetter(b) && (a as int + 32 == b as int || b as int + 32 == a as int))
  {
  }

  function FoldedBy(fold: char -> char, s: string): (r: string)
    ensures |r| == |s| && forall i :: 0 <= i < |s| ==> r[i] == fold(s[i])
  {
    seq(|s|, i requires 0 <= i < |s| => fold(s[i]))
  }

  function Lower(s: string): string {
    FoldedBy(FoldChar, s)
  }

  predicate IsAscii(c: char) {
    c as int < 128
  }

  /**
   * Logins and role names are ASCII, so a folding that agrees with FoldChar on the way into ASCII
   * matches the same texts with them, whatever it does to other letters.
   */
  lemma FoldingIsExact(fold: char -> char, text: string, name: string)
    requires forall c :: IsAscii(fold(c)) || IsAscii(FoldChar(c)) ==> fold(c) == FoldChar(c)
    requires forall i :: 0 <= i < |name| ==> IsAscii(name[i])
    ensures FoldedBy(fold, name) == Lower(name)
    ensures FoldedBy(fold, text) == Lower(name) <==> Lower(text) == Lower(name)
  {
    assert forall i :: 0 <= i < |name| ==> IsAscii(Lower(name)[i]);
    if |text| == |name| {
      forall i | 0 <= i < |text|
        ensures FoldedBy(fold, text)[i] == Lower(name)[i] <==> Lower(text)[i] == Lower(name)[i]
      {
        assert IsAscii(Lower(name)[i]);
      }
    }
  }

  // ---------- Splitting ----------

  function Split(text: string, sep: char): (parts: seq<string>)
    ensures parts != []
  {
    if text == "" then [""]
    else
      var rest := Split(text[1..], sep);
      if text[0] == sep then [""] + rest else [[text[0]] + rest[0]] + rest[1..]
  }

  function Join(parts: seq<string>, sep: char): string
    requires parts != []
  {
    if |parts| == 1 then parts[0] else parts[0] + [sep] + Join(parts[1..], sep)
  }

  /** The parts of a text hold no separator and join to the text again. */
  lemma {:induction false} SplitJoins(text: string, sep: char)
    ensures Join(Split(text, sep), sep) == text
    ensures forall i :: 0 <= i < |Split(text, sep)| ==> sep !in Split(text, sep)[i]
  {
    if text != "" {
      SplitJoins(text[1..], sep);
      var rest := Split(text[1..], sep);
      assert ([""] + rest)[1..] == rest;
      assert text == [text[0]] + text[1..];
    }
  }

  lemma {:induction false} SplitNowhere(text: string, sep: char)
    requires sep !in text
    ensures Split(text, sep) == [text]
  {
    if text != "" {
      SplitNowhere(text[1..], sep);
      assert text == [text[0]] + text[1..];
    }
  }

  lemma {:induction false} SplitAtFirst(a: string, b: string, sep: char)
    requires sep !in a
    ensures Split(a + [sep] + b, sep) == [a] + Split(b, sep)
  {
    var text := a + [sep] + b;
    if a == "" {
      assert text[1..] == b;
    } else {
      assert text[1..] == a[1..] + [sep] + b;
      SplitAtFirst(a[1..], b, sep);
      assert a == [a[0]] + a[1..];
    }
  }

  function WordsFrom(text: string, word: string): seq<string>
    decreases |text|
  {
    if text == "" then (if word == "" then [] else [word])
    else if O.IsSpace(text[0]) then (if word == "" then [] else [word]) + WordsFrom(text[1..], "")
    else WordsFrom(text[1..], word + [text[0]])
  }

  /** The words of a text: strings.Fields. */
  function Fields(text: string): seq<string> {
    WordsFrom(text, "")
  }

  lemma {:induction false} OneWord(text: string, word: string)
    requires forall i :: 0 <= i < |text| ==> !O.IsSpace(text[i])
    ensures WordsFrom(text, word) == if word + text == "" then [] else [word + text]
    decreases |text|
  {
    if text != "" {
      OneWord(text[1..], word + [text[0]]);
      assert word + [text[0]] + text[1..] == word + text;
    } else {
      assert word + text == word;
    }
  }

  // ---------- Performers by login ----------

  /** A user as ListUsers returns it. */
  datatype Listed = Listed(id: Uuid, login: string, performer: bool, active: bool)

  predicate Assignable(u: Listed) {
    u.performer && u.active
  }

  /** The map from folded login to user; a later user with the same login replaces an earlier one. */
  function ByLogin(users: seq<Listed>): map<string, Uuid> {
    if users == [] then map[]
    else
      var u := users[|users| - 1];
      var earlier := ByLogin(users[..|users| - 1]);
      if Assignable(u) then earlier[Lower(u.login) := u.id] else earlier
  }

  function LookUp(byLogin: map<string, Uuid>, names: seq<string>): Option<seq<Uuid>> {
    if names == [] then Some([])
    else
      match LookUp(byLogin, names[..|names| - 1])
      case None => None
      case Some(ids) =>
        var key := Lower(Trim(names[|names| - 1]));
        if key in byLogin then Some(ids + [byLogin[key]]) else None
  }

  /** resolvePerformers; `users` is the answer of ListUsers, None when the call fails. */
  function Resolve(users: Option<seq<Listed>>, text: string): Option<seq<Uuid>> {
    if text == "-" then Some([])
    else if users.None? then None
    else LookUp(ByLogin(users.value), Split(text, ','))
  }

  /** This user is the last assignable one of that login. */
  predicate Owns(users: seq<Listed>, k: nat, login: string)
    requires k < |users|
  {
    && Assignable(users[k]) && Lower(users[k].login) == login
    && forall j :: k < j < |users| && Assignable(users[j]) ==> Lower(users[j].login) != login
  }

  /** Some active performer has this login. */
  predicate Known(users: seq<Listed>, login: string) {
    exists k :: 0 <= k < |users| && Assignable(users[k]) && Lower(users[k].login) == login
  }

  /** The last active performer of this login has this id. */
  predicate Denotes(users: seq<Listed>, login: string, id: Uuid) {
    exists k :: 0 <= k < |users| && Owns(users, k, login) && users[k].id == id
  }

  predicate AllKnown(users: seq<Listed>, names: seq<string>) {
    forall i :: 0 <= i < |names| ==> Known(users, Lower(Trim(names[i])))
  }

  lemma {:induction false} ByLoginOwner(users: seq<Listed>, login: string)
    ensures login in ByLogin(users) <==> Known(users, login)
    ensures login in ByLogin(users) ==> Denotes(users, login, ByLogin(users)[login])
  {
    if users != [] {
      hide Lower;
      var init, u := users[..|users| - 1], users[|users| - 1];
      ByLoginOwner(init, login);
      if Assignable(u) && Lower(u.login) == login {
        assert Owns(users, |init|, login);
      } else if login in ByLogin(init) {
        var k :| 0 <= k < |init| && Owns(init, k, login) && init[k].id == ByLogin(init)[login];
        assert users[k] == init[k] && Owns(users, k, login);
      }
    }
  }

  lemma {:induction false} LookUpIsPointwise(byLogin: map<string, Uuid>, names: seq<string>)
    ensures LookUp(byLogin, names).Some? <==> forall i :: 0 <= i < |names| ==> Lower(Trim(names[i])) in byLogin
    ensures LookUp(byLogin, names).Some? ==>
              && |LookUp(byLogin, names).value| == |names|
              && forall i :: 0 <= i < |names| ==> LookUp(byLogin, names).value[i] == byLogin[Lower(Trim(names[i]))]
  {
    hide Lower, Trim;
    if names != [] {
      var init := names[..|names| - 1];
      LookUpIsPointwise(byLogin, init);
      assert forall i :: 0 <= i < |init| ==> init[i] == names[i];
    }
  }

  /**
   * '-' names nobody. Another list of logins is accepted exactly when the users could be listed and
   * each part, trimmed and folded, is the login of an active performer; it then becomes the ids of
   * those performers, in the order they were written.
   */
  lemma ResolvedArePerformers(users: seq<Listed>, text: string)
    ensures Resolve(None, text) == if text == "-" then Some([]) else None
    ensures text == "-" ==> Resolve(Some(users), text) == Some([])
    ensures text != "-" ==> (Resolve(Some(users), text).Some? <==> AllKnown(users, Split(text, ',')))
    ensures text != "-" && Resolve(Some(users), text).Some? ==>
              var names, ids := Split(text, ','), Resolve(Some(users), text).value;
              && |ids| == |names|
              && forall i :: 0 <= i < |names| ==> Denotes(users, Lower(Trim(names[i])), ids[i])
  {
    hide ByLogin, LookUp, Known, Denotes, Lower, Trim;
    var names := Split(text, ',');
    LookUpIsPointwise(ByLogin(users), names);
    forall i | 0 <= i < |names|
      ensures Lower(Trim(names[i])) in ByLogin(users) <==> Known(users, Lower(Trim(names[i])))
      ensures Lower(Trim(names[i])) in ByLogin(users) ==>
                Denotes(users, Lower(Trim(names[i])), ByLogin(users)[Lower(Trim(names[i]))])
    {
      ByLoginOwner(users, Lower(Trim(names[i])));
    }
  }
}


/**
 * User paging: the List query of internal/user/repository/postgres.go and the next-page token of
 * ListUsers in internal/user/transport/grpc.go. Rows are ordered by id, but the cursor compares
 * the text of an id; the two orders agree for the text form of section 4 of RFC 9562.
 */
module Paging {

  type Byte = b: int | 0 <= b < 256

  /** The sixteen octets of a UUID. */
  type Octets = s: seq<Byte> | |s| == 16 witness seq(16, _ => 0)

  // ---------- The two orders ----------

  /** The byte order of the uuid column. */
  predicate Less(a: seq<Byte>, b: seq<Byte>) {
    b != [] && (a == [] || a[0] < b[0] || (a[0] == b[0] && Less(a[1..], b[1..])))
  }

  /** The order of text under the C collation. */
  predicate LessText(a: string, b: string) {
    b != [] && (a == [] || a[0] < b[0] || (a[0] == b[0] && LessText(a[1..], b[1..])))
  }

  function HexDigit(d: int): char
    requires 0 <= d < 16
  {
    if d < 10 then ('0' as int + d) as char else ('a' as int + d - 10) as char
  }

  /** The two digits of octet i, after a hyphen where a group begins. */
  function Group(i: nat, b: Byte): (text: string)
    ensures |text| == if i in {4, 6, 8, 10} then 3 else 2
  {
    (if i in {4, 6, 8, 10} then "-" else "") + [HexDigit(b / 16), HexDigit(b % 16)]
  }

  function TextFrom(s: Octets, i: nat): string
    requires i <= 16
    decreases 16 - i
  {
    if i == 16 then "" else Group(i, s[i]) + TextFrom(s, i + 1)
  }

  function Text(s: Octets): (text: string)
    ensures text != ""
  {
    TextFrom(s, 0)
  }

  // ---------- The text form ----------

  /** Where octet i begins in the text. */
  function Place(i: nat): nat {
    2 * i + (if i > 4 then 1 else 0) + (if i > 6 then 1 else 0) + (if i > 8 then 1 else 0) + (if i > 10 then 1 else 0)
  }

  lemma GroupHas(i: nat, b: Byte, k: nat)
    requires i < 16 && k < |Group(i, b)|
    ensures |Group(i, b)| == Place(i + 1) - Place(i)
    ensures Group(i, b)[k] == '-' <==> Place(i) + k in {8, 13, 18, 23}
  {
  }

  lemma {:induction false} TextFromHas(s: Octets, i: nat, k: nat)
    requires i < 16 && k < Place(16) - Place(i)
    ensures |TextFrom(s, i)| == Place(16) - Place(i)
    ensures TextFrom(s, i)[k] == '-' <==> Place(i) + k in {8, 13, 18, 23}
    decreases 16 - i
  {
    var group := Group(i, s[i]);
    GroupHas(i, s[i], if k < |group| then k else 0);
    hide Group;
    assert TextFrom(s, i) == group + TextFrom(s, i + 1);
    if i < 15 {
      TextFromHas(s, i + 1, if k < |group| then 0 else k - |group|);
    }
  }

  /** Thirty-six characters, with hyphens behind the octets 4, 6, 8 and 10 and nowhere else. */
  lemma TextIsHyphenated(s: Octets)
    ensures |Text(s)| == 36
    ensures forall k :: 0 <= k < 36 ==> (Text(s)[k] == '-' <==> k in {8, 13, 18, 23})
  {
    forall k | 0 <= k < 36
      ensures |Text(s)| == 36 && (Text(s)[k] == '-' <==> k in {8, 13, 18, 23})
    {
      TextFromHas(s, 0, k);
    }
    TextFromHas(s, 0, 0);
  }

  lemma {:induction false} SharedPrefix(p: string, a: string, b: string)
    ensures LessText(p + a, p + b) <==> LessText(a, b)
  {
    if p == "" {
      assert p + a == a && p + b == b;
    } else {
      SharedPrefix(p[1..], a, b);
      assert (p + a)[1..] == p[1..] + a && (p + b)[1..] == p[1..] + b;
    }
  }

  lemma GroupOrder(i: nat, x: Byte, y: Byte, a: string, b: string)
    requires x < y
    ensures LessText(Group(i, x) + a, Group(i, y) + b) && !LessText(Group(i, y) + b, Group(i, x) + a)
  {
    var p := if i in {4, 6, 8, 10} then "-" else "";
    var s, t := [HexDigit(x / 16), HexDigit(x % 16)] + a, [HexDigit(y / 16), HexDigit(y % 16)] + b;
    assert Group(i, x) + a == p + s && Group(i, y) + b == p + t;
    SharedPrefix(p, s, t);
    SharedPrefix(p, t, s);
    assert s[1..] == [HexDigit(x % 16)] + a && t[1..] == [HexDigit(y % 16)] + b;
    assert s[1..][0] == HexDigit(x % 16) && t[1..][0] == HexDigit(y % 16);
  }

  lemma {:induction false} TextFromOrder(a: Octets, b: Octets, i: nat)
    requires i <= 16
    ensures LessText(TextFrom(a, i), TextFrom(b, i)) <==> Less(a[i..], b[i..])
    decreases 16 - i
  {
    if i < 16 {
      hide Group, LessText;
      if a[i] == b[i] {
        SharedPrefix(Group(i, a[i]), TextFrom(a, i + 1), TextFrom(b, i + 1));
        TextFromOrder(a, b, i + 1);
        assert a[i..][1..] == a[i + 1..] && b[i..][1..] == b[i + 1..];
      } else if a[i] < b[i] {
        GroupOrder(i, a[i], b[i], TextFrom(a, i + 1), TextFrom(b, i + 1));
      } else {
        GroupOrder(i, b[i], a[i], TextFrom(b, i + 1), TextFrom(a, i + 1));
      }
    }
  }

  /** Comparing the text of two ids is comparing the ids. */
  lemma TextOrder(a: Octets, b: Octets)
    ensures LessText(Text(a), Text(b)) <==> Less(a, b)
  {
    TextFromOrder(a, b, 0);
    assert a[0..] == a && b[0..] == b;
  }

  // ---------- Pages ----------

  // From here on a row stands for its user and is written as id::text.

  /** The rows in the order of their text. */
  ghost predicate Sorted(ids: seq<string>) {
    (forall i, j :: 0 <= i < j < |ids| ==> LessText(ids[i], ids[j])) && "" !in ids
  }

  /** The users table in the order of its uuid index. */
  ghost predicate InIndexOrder(users: seq<Octets>) {
    forall i, j :: 0 <= i < j < |users| ==> Less(users[i], users[j])
  }

  function Texts(users: seq<Octets>): (texts: seq<string>)
    ensures |texts| == |users| && forall i :: 0 <= i < |users| ==> texts[i] == Text(users[i])
  {
    seq(|users|, i requires 0 <= i < |users| => Text(users[i]))
  }

  /** ORDER BY id lists the rows in the order of the text that the cursor compares. */
  lemma IndexOrderIsTextOrder(users: seq<Octets>)
    requires InIndexOrder(users)
    ensures Sorted(Texts(users))
  {
    forall i, j | 0 <= i < j < |users|
      ensures LessText(Texts(users)[i], Texts(users)[j])
    {
      TextOrder(users[i], users[j]);
    }
  }

  function Limit(asked: int): (n: nat)
    ensures 1 <= n <= 100
  {
    if asked < 1 || asked > 100 then 50 else asked
  }

  /** WHERE $1='' OR id::text>$1. */
  function After(ids: seq<string>, token: string): seq<string> {
    if ids == [] then []
    else (if token == "" || LessText(token, ids[0]) then [ids[0]] else []) + After(ids[1..], token)
  }

  function Page(ids: seq<string>, asked: int, token: string): seq<string> {
    var rows := After(ids, token);
    if |rows| <= Limit(asked) then rows else rows[..Limit(asked)]
  }

  function NextToken(page: seq<string>): string {
    if page == [] then "" else page[|page| - 1]
  }

  lemma AfterNext(ids: seq<string>, after: string, i: nat)
    requires i < |ids|
    ensures After(ids[i..], after) == (if after == "" || LessText(after, ids[i]) then [ids[i]] else [])
        + After(ids[i + 1..], after)
  {
    hide LessText;
    assert ids[i..][1..] == ids[i + 1..];
  }

  lemma NothingAfter(ids: seq<string>, after: string)
    ensures ids == [] ==> After(ids, after) == []
  {
  }

  /** The repository's List: the rows behind the token in order of id, up to the limit. */
  method List(ids: seq<string>, limit: int, after: string) returns (result: seq<string>)
    ensures result == Page(ids, limit, after)
  {
    hide LessText, After;
    var rows := limit;
    if rows < 1 || rows > 100 {
      rows := 50;
    }
    result := [];
    var i := 0;
    assert ids[0..] == ids;
    while i < |ids| && |result| < rows
      invariant i <= |ids| && |result| <= rows == Limit(limit)
      invariant result + After(ids[i..], after) == After(ids, after)
    {
      AfterNext(ids, after, i);
      if after == "" || LessText(after, ids[i]) {
        result := result + [ids[i]];
      }
      i := i + 1;
    }
    NothingAfter(ids[i..], after);
  }

  /** ListUsers: the rows of the page and the token of its last row. */
  method ListUsers(ids: seq<string>, pageSize: int, pageToken: string) returns (users: seq<string>, next: string)
    ensures users == Page(ids, pageSize, pageToken)
    ensures next == NextToken(users)
  {
    var rows := List(ids, pageSize, pageToken);
    users := [];
    for i := 0 to |rows|
      invariant users == rows[..i]
    {
      users := users + [rows[i]];
    }
    next := "";
    if |users| > 0 {
      next := users[|users| - 1];
    }
  }

  /** The token that opens page n of a walk from the empty token. */
  function Token(ids: seq<string>, asked: int, n: nat): string {
    if n == 0 then "" else NextToken(Page(ids, asked, Token(ids, asked, n - 1)))
  }

  /** The first n pages of the walk, one after the other. */
  function Pages(ids: seq<string>, asked: int, n: nat): seq<string> {
    if n == 0 then [] else Pages(ids, asked, n - 1) + Page(ids, asked, Token(ids, asked, n - 1))
  }

  lemma {:induction false} AfterAll(ids: seq<string>)
    ensures After(ids, "") == ids
  {
    if ids != [] {
      AfterAll(ids[1..]);
    }
  }

  lemma {:induction false} AfterSplits(ids: seq<string>, token: string, k: nat)
    requires k <= |ids| && token != ""
    requires forall i :: 0 <= i < |ids| ==> (LessText(token, ids[i]) <==> k <= i)
    ensures After(ids, token) == ids[k..]
  {
    if ids != [] {
      assert LessText(token, ids[0]) <==> k <= 0;
      AfterSplits(ids[1..], token, if k == 0 then 0 else k - 1);
    }
  }

  lemma {:induction false} LessIsStrict(a: string, b: string)
    ensures !(LessText(a, b) && LessText(b, a))
    ensures !LessText(a, a)
  {
    if a != "" {
      LessIsStrict(a[1..], if b == "" then "" else b[1..]);
    }
  }

  /** After the token of a row come exactly the rows behind it. */
  lemma AfterRow(ids: seq<string>, k: nat)
    requires Sorted(ids) && k < |ids|
    ensures After(ids, ids[k]) == ids[k + 1..]
  {
    forall i | 0 <= i < |ids|
      ensures LessText(ids[k], ids[i]) <==> k + 1 <= i
    {
      LessIsStrict(ids[i], ids[k]);
    }
    AfterSplits(ids, ids[k], k + 1);
  }

  /** How many users n pages cover. */
  function Covered(ids: seq<string>, asked: int, n: nat): (c: nat)
    ensures c <= |ids|
  {
    if n == 0 then 0
    else
      var from := Covered(ids, asked, n - 1);
      if from + Limit(asked) <= |ids| then from + Limit(asked) else |ids|
  }

  lemma {:induction false} CoveredIs(ids: seq<string>, asked: int, n: nat)
    ensures Covered(ids, asked, n) == if n * Limit(asked) <= |ids| then n * Limit(asked) else |ids|
  {
    hide Limit;
    if n > 0 {
      CoveredIs(ids, asked, n - 1);
      assert n * Limit(asked) == (n - 1) * Limit(asked) + Limit(asked);
    }
  }

  lemma PageStretch(ids: seq<string>, asked: int, token: string, from: nat, to: nat)
    requires Sorted(ids) && from < to <= |ids| && After(ids, token) == ids[from..]
    requires to == if from + Limit(asked) <= |ids| then from + Limit(asked) else |ids|
    ensures ids[..from] + Page(ids, asked, token) == ids[..to]
    ensures After(ids, NextToken(Page(ids, asked, token))) == ids[to..]
  {
    hide Sorted, After, Limit;
    var page := Page(ids, asked, token);
    assert page == ids[from..to];
    assert page[|page| - 1] == ids[to - 1];
    AfterRow(ids, to - 1);
  }

  /** While pages are not empty, n pages make the first users in order, and the next page starts behind them. */
  lemma {:induction false} PagesCover(ids: seq<string>, asked: int, n: nat)
    requires Sorted(ids) && (n == 0 || Covered(ids, asked, n - 1) < |ids|)
    ensures Pages(ids, asked, n) == ids[..Covered(ids, asked, n)]
    ensures After(ids, Token(ids, asked, n)) == ids[Covered(ids, asked, n)..]
  {
    hide Sorted, After, Page, NextToken, Limit;
    if n == 0 {
      AfterAll(ids);
    } else {
      PagesCover(ids, asked, n - 1);
      PageStretch(ids, asked, Token(ids, asked, n - 1), Covered(ids, asked, n - 1), Covered(ids, asked, n));
    }
  }

  lemma Monotone(a: nat, b: nat, m: nat)
    requires a <= b
    ensures a * m <= b * m
  {
  }

  lemma PageIsNotEmpty(ids: seq<string>, asked: int, k: nat)
    requires Sorted(ids) && k * Limit(asked) < |ids|
    ensures Page(ids, asked, Token(ids, asked, k)) != []
  {
    hide Sorted, After, Limit, Pages, Token, Covered;
    if k > 0 {
      Monotone(k - 1, k, Limit(asked));
      CoveredIs(ids, asked, k - 1);
    }
    CoveredIs(ids, asked, k);
    PagesCover(ids, asked, k);
  }

  lemma CeilBounds(total: nat, limit: nat, n: nat)
    requires limit > 0 && n == (total + limit - 1) / limit
    ensures total <= n * limit
    ensures n > 0 ==> (n - 1) * limit < total
  {
  }

  /**
   * For every page size the walk from the empty token ends at its first empty page, after
   * ceil(n/limit) pages, and its pages make the full list in id order without gap or repeat.
   */
  lemma WalkListsEveryUserOnce(users: seq<Octets>, asked: int, n: nat)
    requires InIndexOrder(users)
    requires var size := if 1 <= asked <= 100 then asked else 50; n == (|users| + size - 1) / size
    ensures Pages(Texts(users), asked, n) == Texts(users)
    ensures Page(Texts(users), asked, Token(Texts(users), asked, n)) == []
    ensures forall k :: 0 <= k < n ==> Page(Texts(users), asked, Token(Texts(users), asked, k)) != []
  {
    hide Sorted, After, LessText, Texts, Pages, Token, InIndexOrder, Covered;
    assert n == (|users| + Limit(asked) - 1) / Limit(asked);
    hide Limit;
    var ids := Texts(users);
    IndexOrderIsTextOrder(users);
    CeilBounds(|users|, Limit(asked), n);
    if n > 0 {
      CoveredIs(ids, asked, n - 1);
    }
    CoveredIs(ids, asked, n);
    PagesCover(ids, asked, n);
    forall k | 0 <= k < n
      ensures Page(ids, asked, Token(ids, asked, k)) != []
    {
      Monotone(k, n - 1, Limit(asked));
      PageIsNotEmpty(ids, asked, k);
    }
  }
}


/** ClickHouse table identity: user, collection number and table name composed into one
    identifier. */
module Naming {
  import opened Wrappers
  import opened Decimal

  const MAX_IDENTIFIER_LENGTH := 128

  predicate IsLetter(c: char) {
    'A' <= c <= 'Z' || 'a' <= c <= 'z'
  }

  predicate IsIdentifierStart(c: char) {
    IsLetter(c) || c == '_'
  }

  predicate IsIdentifierChar(c: char) {
    IsIdentifierStart(c) || IsDigit(c)
  }

  predicate AllIdentifierChars(s: string) {
    forall i :: 0 <= i < |s| ==> IsIdentifierChar(s[i])
  }

  /** The pattern's `$` also matches before one final newline. */
  function WithoutFinalNewline(s: string): string {
    if s != "" && s[|s| - 1] == '\n' then s[..|s| - 1] else s
  }

  predicate IsIdentifierPart(s: string) {
    var body := WithoutFinalNewline(s);
    body != "" && IsIdentifierStart(body[0]) && AllIdentifierChars(body)
  }

  /** The user part is checked after a "u" in front and with dashes read as underscores. */
  function Dashless(s: string): string {
    seq(|s|, i requires 0 <= i < |s| => if s[i] == '-' then '_' else s[i])
  }

  predicate AcceptsUser(user: string) {
    user != "" && IsIdentifierPart("u" + Dashless(user))
  }

  function Compose(user: string, collection: nat, table: string): string {
    "user_" + (user + ("_collection_" + (Print(collection) + ("_" + table))))
  }

  predicate Accepts(user: string, collection: int, table: string) {
    && AcceptsUser(user)
    && collection >= 1
    && IsIdentifierPart(table)
    && |Compose(user, collection, table)| <= MAX_IDENTIFIER_LENGTH
  }

  /** ch_unique_identifier; None where it raises ValueError. */
  function Identifier(user: string, collection: int, table: string): Option<string> {
    if Accepts(user, collection, table) then Some(Compose(user, collection, table)) else None
  }

  // ---------------------------------------------------------------- what is accepted

  lemma Associative(a: string, b: string, c: string)
    ensures (a + b) + c == a + (b + c)
  {
  }

  predicate UserChar(c: char) {
    'A' <= c <= 'Z' || 'a' <= c <= 'z' || '0' <= c <= '9' || c == '_' || c == '-'
  }

  /** Every character is one of these, or a newline at the very end. */
  ghost predicate UserChars(user: string) {
    forall i :: 0 <= i < |user| ==> UserChar(user[i]) || (user[i] == '\n' && i == |user| - 1)
  }

  ghost predicate TableChars(table: string) {
    forall i :: 0 <= i < |table| ==>
      || 'A' <= table[i] <= 'Z' || 'a' <= table[i] <= 'z' || table[i] == '_'
      || ('0' <= table[i] <= '9' && i > 0)
      || (table[i] == '\n' && i > 0 && i == |table| - 1)
  }

  /** Identifier characters, with a newline at the very end perhaps. */
  lemma PartChars(s: string)
    requires |s| > 1
    ensures AllIdentifierChars(WithoutFinalNewline(s)) <==>
      forall i :: 0 <= i < |s| ==> IsIdentifierChar(s[i]) || (s[i] == '\n' && i == |s| - 1)
  {
    hide IsIdentifierChar;
    var body := WithoutFinalNewline(s);
    assert forall i :: 0 <= i < |body| ==> body[i] == s[i];
    if AllIdentifierChars(body) {
      forall i | 0 <= i < |s| ensures IsIdentifierChar(s[i]) || (s[i] == '\n' && i == |s| - 1) {
        assert i < |body| ==> IsIdentifierChar(body[i]);
      }
    }
  }

  lemma DashlessChar(user: string, i: nat)
    requires i < |user|
    ensures ("u" + Dashless(user))[i + 1] == if user[i] == '-' then '_' else user[i]
    ensures IsIdentifierChar(("u" + Dashless(user))[i + 1]) <==> UserChar(user[i])
    ensures ("u" + Dashless(user))[i + 1] == '\n' <==> user[i] == '\n'
  {
  }

  lemma UserExactly(user: string)
    ensures AcceptsUser(user) <==> user != "" && UserChars(user)
  {
    if user != "" {
      var s := "u" + Dashless(user);
      PartChars(s);
      assert IsIdentifierChar(s[0]);
      hide IsIdentifierChar, UserChar, Dashless;
      forall i: nat | i < |user|
        ensures IsIdentifierChar(s[i + 1]) <==> UserChar(user[i])
        ensures s[i + 1] == '\n' <==> user[i] == '\n'
      {
        DashlessChar(user, i);
      }
    }
  }

  lemma TableExactly(table: string)
    ensures IsIdentifierPart(table) <==> table != "" && TableChars(table)
  {
    if table != "" {
      var body := WithoutFinalNewline(table);
      assert forall i :: 0 <= i < |body| ==> body[i] == table[i];
      if IsIdentifierPart(table) {
        forall i | 0 <= i < |table|
          ensures IsIdentifierChar(table[i]) || (table[i] == '\n' && i == |table| - 1 && i > 0)
        {
          assert i < |body| ==> IsIdentifierChar(body[i]);
        }
      }
    }
  }

  /** Which inputs have a table name, and which it is, exactly: users of letters, digits,
      underscores and dashes, such as integers and UUIDs; positive numbers; tables of
      letters, digits and underscores that do not begin with a digit; all of it at most 128
      long.  Both texts may end in a newline. */
  lemma AcceptedExactly(user: string, n: int, table: string)
    ensures Identifier(user, n, table) ==
      if user != "" && UserChars(user) && n >= 1 && table != "" && TableChars(table)
         && |"user_" + user + "_collection_" + Print(n) + "_" + table| <= 128
      then Some("user_" + user + "_collection_" + Print(n) + "_" + table)
      else None
  {
    hide UserChars, TableChars, AcceptsUser, IsIdentifierPart, Compose, Print;
    UserExactly(user);
    TableExactly(table);
    if n >= 1 {
      ComposeIs(user, n, table);
    }
  }

  lemma ComposeIs(user: string, n: nat, table: string)
    ensures Compose(user, n, table) == "user_" + user + "_collection_" + Print(n) + "_" + table
  {
    hide Print;
    Associative("user_" + user + "_collection_", Print(n), "_" + table);
    Associative("user_" + user + "_collection_" + Print(n), "_", table);
    Associative("user_" + user, "_collection_", Print(n) + ("_" + table));
    Associative("user_", user, "_collection_" + (Print(n) + ("_" + table)));
  }

  // ---------------------------------------------------------------- decoding

  function IndexOf(s: string, c: char): (i: nat)
    ensures i <= |s|
  {
    if s == "" || s[0] == c then 0 else 1 + IndexOf(s[1..], c)
  }

  lemma {:induction false} IndexOfIs(before: string, c: char, after: string)
    requires c !in before
    ensures IndexOf(before + ([c] + after), c) == |before|
  {
    var s := before + ([c] + after);
    if before != "" {
      IndexOfIs(before[1..], c, after);
      assert s[1..] == before[1..] + ([c] + after);
      assert s[0] == before[0];
    }
  }

  function Strip(prefix: string, s: string): Option<string> {
    if prefix <= s then Some(s[|prefix|..]) else None
  }

  lemma StripIs(prefix: string, s: string)
    ensures Strip(prefix, prefix + s) == Some(s)
  {
  }

  /** Reads user, collection number and table name back out of an identifier. */
  function Decode(name: string): Option<(string, nat, string)> {
    match Strip("user_", name)
    case None => None
    case Some(rest) =>
      var u := IndexOf(rest, '_');
      match Strip("_collection_", rest[u..])
      case None => None
      case Some(numbered) => DecodeNumbered(rest[..u], numbered)
  }

  function DecodeNumbered(user: string, numbered: string): Option<(string, nat, string)> {
    var k := DigitRun(numbered);
    match Strip("_", numbered[k..])
    case None => None
    case Some(table) => Some((user, Value(numbered[..k]), table))
  }

  lemma DecodeNumberedIs(user: string, collection: nat, table: string)
    ensures DecodeNumbered(user, Print(collection) + ("_" + table)) == Some((user, collection, table))
  {
    var digits := Print(collection);
    PrintDigits(collection);
    DigitRunIs(digits, "_" + table);
    assert (digits + ("_" + table))[..|digits|] == digits;
    assert (digits + ("_" + table))[|digits|..] == "_" + table;
    StripIs("_", table);
  }

  /** The decoder inverts the composition for every user without an underscore: integers
      and UUIDs. */
  lemma DecodeInvertsCompose(user: string, collection: nat, table: string)
    requires '_' !in user
    ensures Decode(Compose(user, collection, table)) == Some((user, collection, table))
  {
    var numbered := Print(collection) + ("_" + table);
    var rest := user + ("_collection_" + numbered);
    StripIs("user_", rest);
    var after := ("_collection_" + numbered)[1..];
    assert "_collection_" + numbered == ['_'] + after;
    IndexOfIs(user, '_', after);
    assert rest[|user|..] == "_collection_" + numbered;
    assert rest[..|user|] == user;
    StripIs("_collection_", numbered);
    DecodeNumberedIs(user, collection, table);
  }

  /** Two pipelines of underscore-free users share a table only if they agree on user,
      collection number and table name. */
  lemma IdentifierIsInjective(user: string, collection: int, table: string, user': string, collection': int,
                              table': string)
    requires '_' !in user && '_' !in user'
    requires Identifier(user, collection, table).Some?
    requires Identifier(user, collection, table) == Identifier(user', collection', table')
    ensures user == user' && collection == collection' && table == table'
  {
    DecodeInvertsCompose(user, collection, table);
    DecodeInvertsCompose(user', collection', table');
  }

  // ---------------------------------------------------------------- which users share tables

  const INFIX := "_collection_"

  /** What follows the user id in an identifier. */
  function Tail(collection: nat, table: string): string {
    INFIX + (Print(collection) + ("_" + table))
  }

  /** The longer id is the shorter one, "_collection_", the shorter one's collection number
      and z; and the shorter one's table name goes on as z and the longer one's tail. */
  ghost predicate Overlap(user: string, n: nat, table: string, longer: string, n': nat, table': string, z: string) {
    && longer == user + (INFIX + (Print(n) + z))
    && "_" + table == z + Tail(n', table')
  }

  lemma OverlapCollides(user: string, n: nat, table: string, longer: string, n': nat, table': string, z: string)
    requires Overlap(user, n, table, longer, n', table', z)
    ensures Compose(user, n, table) == Compose(longer, n', table')
  {
    var rest := Tail(n', table');
    Associative(Print(n), z, rest);
    Associative(INFIX, Print(n) + z, rest);
    Associative(user, INFIX + (Print(n) + z), rest);
  }

  lemma NoInfixInside(n: nat, table: string, k: nat)
    requires 0 < k < |INFIX| + |Print(n)|
    ensures Tail(n, table)[k] != '_' || Tail(n, table)[k + 1] != 'c'
  {
    var s, d := Tail(n, table), Print(n);
    PrintDigits(n);
    if k < 11 {
      assert s[k] == INFIX[k];
    } else if k == 11 {
      assert s[12] == d[0];
    } else {
      assert s[k] == d[k - 12];
    }
  }

  /** Inside a tail the infix begins again only after the number. */
  lemma InfixAgain(n: nat, table: string, k: nat, n': nat, table': string)
    requires 0 < k <= |Tail(n, table)| && Tail(n, table)[k..] == Tail(n', table')
    ensures k >= |INFIX| + |Print(n)|
  {
    assert Tail(n, table)[k..][0] == '_' && Tail(n, table)[k..][1] == 'c';
    if k < |INFIX| + |Print(n)| {
      NoInfixInside(n, table, k);
    }
  }

  lemma CutTail(n: nat, table: string, k: nat)
    requires |INFIX| + |Print(n)| <= k <= |Tail(n, table)|
    ensures
      var j := k - |INFIX| - |Print(n)|;
      && Tail(n, table)[..k] == INFIX + (Print(n) + ("_" + table)[..j])
      && Tail(n, table)[k..] == ("_" + table)[j..]
  {
    Associative(INFIX, Print(n), "_" + table);
  }

  lemma CollisionOverlaps(user: string, n: nat, table: string, longer: string, n': nat, table': string)
      returns (z: string)
    requires |user| < |longer| && Compose(user, n, table) == Compose(longer, n', table')
    ensures Overlap(user, n, table, longer, n', table', z)
  {
    var s, s' := Tail(n, table), Tail(n', table');
    assert Compose(user, n, table)[5..] == user + s;
    assert Compose(longer, n', table')[5..] == longer + s';
    var k := |longer| - |user|;
    Aligned(user, s, longer, s');
    InfixAgain(n, table, k, n', table');
    CutTail(n, table, k);
    z := ("_" + table)[..k - |INFIX| - |Print(n)|];
  }

  lemma Aligned(a: string, s: string, b: string, t: string)
    requires |a| <= |b| && a + s == b + t
    ensures |b| - |a| <= |s| && b == a + s[..|b| - |a|] && t == s[|b| - |a|..]
  {
    assert (a + s)[..|b|] == b;
    assert (a + s)[|b|..] == t;
    assert (a + s)[..|b|] == a + s[..|b| - |a|];
    assert (a + s)[|b|..] == s[|b| - |a|..];
  }

  lemma SameUserSameTable(user: string, n: nat, table: string, user': string, n': nat, table': string)
    requires |user| == |user'| && Compose(user, n, table) == Compose(user', n', table')
    ensures user == user' && n == n' && table == table'
  {
    var (s, s') := (Tail(n, table), Tail(n', table'));
    assert Compose(user, n, table)[5..] == user + s;
    assert Compose(user', n', table')[5..] == user' + s';
    Aligned(user, s, user', s');
    assert s[..0] == "" && s[0..] == s;
    assert s[|INFIX|..] == Print(n) + ("_" + table);
    assert s'[|INFIX|..] == Print(n') + ("_" + table');
    DecodeNumberedIs(user, n, table);
    DecodeNumberedIs(user, n', table');
  }

  /** Which accepted inputs share a table, exactly: equal ones, and those that overlap. */
  lemma TablesCollideExactly(user: string, n: int, table: string, user': string, n': int, table': string)
    requires Accepts(user, n, table) && Accepts(user', n', table') && |user| <= |user'|
    ensures Identifier(user, n, table) == Identifier(user', n', table') <==>
      (user == user' && n == n' && table == table') || exists z :: Overlap(user, n, table, user', n', table', z)
  {
    if Identifier(user, n, table) == Identifier(user', n', table') {
      if |user| == |user'| {
        SameUserSameTable(user, n, table, user', n', table');
      } else {
        var z := CollisionOverlaps(user, n, table, user', n', table');
      }
    }
    if z :| Overlap(user, n, table, user', n', table', z) {
      OverlapCollides(user, n, table, user', n', table', z);
    }
  }

  /** What may stand between the number and the next infix: nothing, or an underscore and
      the front of a table name. */
  predicate FitsFront(z: string) {
    z == "" || (z[0] == '_' && AllIdentifierChars(z[1..]) && (z[1..] == "" || IsIdentifierStart(z[1])))
  }

  /** The longer id is the shorter one, "_collection_", a positive number, and nothing or an
      underscore and the front of a table name; and it leaves room for a shortest table. */
  ghost predicate CanOverlap(user: string, longer: string) {
    && |longer| + |Compose("", 1, "a")| <= MAX_IDENTIFIER_LENGTH
    && exists m: nat, z: string :: m >= 1 && longer == user + (INFIX + (Print(m) + z)) && FitsFront(z)
  }

  ghost predicate CanShare(user: string, user': string) {
    exists n: int, table: string, n': int, table': string ::
      Accepts(user, n, table) && Accepts(user', n', table')
        && Identifier(user, n, table) == Identifier(user', n', table')
  }

  lemma FrontFits(table: string, z: string, rest: string)
    requires IsIdentifierPart(table) && "_" + table == z + rest && |rest| > 1
    ensures FitsFront(z)
  {
    if z != "" {
      var body := WithoutFinalNewline(table);
      assert ("_" + table)[0] == z[0];
      forall i | 0 <= i < |z[1..]| ensures z[1..][i] == body[i] {
        assert ("_" + table)[i + 1] == z[i + 1];
      }
    }
  }

  lemma TailIsLong(n: nat, table: string)
    ensures |Tail(n, table)| >= |INFIX| + 2 + |table|
  {
    PrintDigits(n);
  }

  lemma SharingOverlaps(user: string, n: int, table: string, longer: string, n': int, table': string)
    requires |user| < |longer|
    requires Accepts(user, n, table) && Accepts(longer, n', table')
      && Identifier(user, n, table) == Identifier(longer, n', table')
    ensures CanOverlap(user, longer)
  {
    var z := CollisionOverlaps(user, n, table, longer, n', table');
    TailIsLong(n', table');
    FrontFits(table, z, Tail(n', table'));
    TailIsLong(1, "a");
    ShortestIs();
    assert |Compose(longer, n', table')| == 5 + |longer| + |Tail(n', table')|;
    assert table' != "";
  }

  lemma ShortestIs()
    ensures |Compose("", 1, "a")| == 20
  {
    assert Print(1) == ['1'];
  }

  /** The table name under which the shorter id meets the longer one's shortest table. */
  function MeetingName(z: string): string {
    if z == "" then "collection_1_a" else z[1..] + "_collection_1_a"
  }

  lemma ShortestTail()
    ensures Tail(1, "a") == "_collection_1_a"
    ensures AllIdentifierChars("_collection_1_a") && AllIdentifierChars("collection_1_a")
  {
    assert Print(1) == "1";
  }

  lemma MeetingNameFits(z: string)
    requires FitsFront(z)
    ensures IsIdentifierPart(MeetingName(z))
    ensures "_" + MeetingName(z) == z + Tail(1, "a")
  {
    ShortestTail();
    var name := MeetingName(z);
    assert name[|name| - 1] == 'a';
    if z != "" {
      assert z == "_" + z[1..];
      Associative("_", z[1..], "_collection_1_a");
    }
  }

  lemma OverlapShares(user: string, longer: string, m: nat, z: string)
    requires AcceptsUser(user) && AcceptsUser(longer) && m >= 1
    requires longer == user + (INFIX + (Print(m) + z)) && FitsFront(z)
    requires |longer| + |Compose("", 1, "a")| <= MAX_IDENTIFIER_LENGTH
    ensures CanShare(user, longer)
  {
    MeetingNameFits(z);
    OverlapCollides(user, m, MeetingName(z), longer, 1, "a", z);
    ShortestIs();
    assert |Compose(longer, 1, "a")| == |longer| + 20 by { assert Print(1) == ['1']; }
    assert Accepts(user, m, MeetingName(z)) && Accepts(longer, 1, "a");
    assert Identifier(user, m, MeetingName(z)) == Identifier(longer, 1, "a");
  }

  /** Two different accepted users can share a table exactly if the longer id continues the
      shorter one in this way. */
  lemma UsersCollideExactly(user: string, longer: string)
    requires AcceptsUser(user) && AcceptsUser(longer) && user != longer && |user| <= |longer|
    ensures CanShare(user, longer) <==> CanOverlap(user, longer)
  {
    if CanShare(user, longer) {
      var n: int, table: string, n': int, table': string :|
        Accepts(user, n, table) && Accepts(longer, n', table')
          && Identifier(user, n, table) == Identifier(longer, n', table');
      if |user| == |longer| {
        SameUserSameTable(user, n, table, longer, n', table');
        assert false;
      }
      SharingOverlaps(user, n, table, longer, n', table');
    }
    if CanOverlap(user, longer) {
      var m: nat, z: string :| m >= 1 && longer == user + (INFIX + (Print(m) + z)) && FitsFront(z);
      OverlapShares(user, longer, m, z);
    }
  }
}

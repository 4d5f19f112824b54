/** `_toml` prints Python values as TOML; an independent reader of TOML v1.0.0 values reads
    them back.  Floating-point values are not part of this model. */
module Toml {
  import opened Wrappers
  import opened Decimal
  import opened Quoting
  import Naming

  datatype Value =
    | StrValue(s: string)
    | BoolValue(b: bool)
    | IntValue(n: int)
    | ListValue(items: seq<Value>)

  // ---------------------------------------------------------------- printing

  function Print(v: Value): string
    decreases v, 1
  {
    match v
    case ListValue(items) => "[" + (Join(items) + "]")
    case BoolValue(b) => if b then "true" else "false"
    case IntValue(n) => PrintInt(n)
    case StrValue(s) => Quote(s)
  }

  /** The printed items, with ", " between them. */
  function Join(items: seq<Value>): string
    decreases items, 0
  {
    if items == [] then ""
    else if |items| == 1 then Print(items[0])
    else Print(items[0]) + (", " + Join(items[1..]))
  }

  // ---------------------------------------------------------------- reading

  predicate IsSpace(c: char) {
    c == ' ' || c == '\t' || c == '\n' || c == '\r'
  }

  function SkipSpace(t: string): (r: string)
    ensures |r| <= |t|
  {
    if t != "" && IsSpace(t[0]) then SkipSpace(t[1..]) else t
  }

  /** A bare value ends here. */
  predicate Ends(t: string) {
    t == "" || IsSpace(t[0]) || t[0] == ',' || t[0] == ']' || t[0] == '#'
  }

  /** A decimal integer without leading zeros, as TOML wants it. */
  function ReadDigits(t: string): (r: Option<(nat, string)>)
    ensures r.Some? ==> |r.value.1| < |t|
  {
    var k := DigitRun(t);
    if k == 0 || (k > 1 && t[0] == '0') || !Ends(t[k..]) then None else Some((Decimal.Value(t[..k]), t[k..]))
  }

  function ReadInteger(t: string): (r: Option<(int, string)>)
    requires t != ""
    ensures r.Some? ==> |r.value.1| < |t|
  {
    if t[0] == '-' then
      match ReadDigits(t[1..])
      case Some((n, rest)) => Some((0 - n as int, rest))
      case None => None
    else
      match ReadDigits(t)
      case Some((n, rest)) => Some((n, rest))
      case None => None
  }

  function ReadWord(word: string, t: string): (r: Option<string>)
    ensures r.Some? && word != "" ==> |r.value| < |t|
  {
    if word <= t && Ends(t[|word|..]) then Some(t[|word|..]) else None
  }

  /** One value at the head of t, and what follows it.  Three quotes open a multi-line
      string, which this reader does not read. */
  function ReadValue(t: string): (r: Option<(Value, string)>)
    ensures r.Some? ==> |r.value.1| < |t|
    decreases |t|, 1
  {
    if t == "" then None
    else if t[0] == '"' then
      if "\"\"\"" <= t then None else
      (match ReadString(TomlText, t)
       case Some((s, rest)) => Some((StrValue(s), rest))
       case None => None)
    else if t[0] == '[' then
      (match ReadItems(SkipSpace(t[1..]))
       case Some((items, rest)) => Some((ListValue(items), rest))
       case None => None)
    else if t[0] == 't' then
      (match ReadWord("true", t)
       case Some(rest) => Some((BoolValue(true), rest))
       case None => None)
    else if t[0] == 'f' then
      (match ReadWord("false", t)
       case Some(rest) => Some((BoolValue(false), rest))
       case None => None)
    else
      match ReadInteger(t)
      case Some((n, rest)) => Some((IntValue(n), rest))
      case None => None
  }

  /** The items of an array up to its closing bracket. */
  function ReadItems(t: string): (r: Option<(seq<Value>, string)>)
    ensures r.Some? ==> |r.value.1| < |t|
    decreases |t|, 2
  {
    if t != "" && t[0] == ']' then Some(([], t[1..])) else
    match ReadValue(t)
    case None => None
    case Some((v, after)) =>
      var next := SkipSpace(after);
      if next == "" then None
      else if next[0] == ']' then Some(([v], next[1..]))
      else if next[0] == ',' then
        match ReadItems(SkipSpace(next[1..]))
        case Some((vs, rest)) => Some(([v] + vs, rest))
        case None => None
      else None
  }

  // ---------------------------------------------------------------- round trip

  /** Some string in the value has a character beyond the basic multilingual plane. */
  predicate Astral(v: Value)
    decreases v, 1
  {
    match v
    case StrValue(s) => HasAstral(s)
    case ListValue(items) => SomeAstral(items)
    case _ => false
  }

  predicate SomeAstral(items: seq<Value>)
    decreases items, 0
  {
    items != [] && (Astral(items[0]) || SomeAstral(items[1..]))
  }

  lemma {:induction false} SomeAstralAt(items: seq<Value>)
    ensures SomeAstral(items) <==> exists i :: 0 <= i < |items| && Astral(items[i])
  {
    if items != [] {
      SomeAstralAt(items[1..]);
      if exists i :: 0 <= i < |items| && Astral(items[i]) {
        var i :| 0 <= i < |items| && Astral(items[i]);
        if i > 0 {
          assert items[1..][i - 1] == items[i];
        }
      }
      if SomeAstral(items[1..]) {
        var i :| 0 <= i < |items[1..]| && Astral(items[1..][i]);
        assert items[i + 1] == items[1..][i];
      }
    }
  }

  /** Printed values start with a character that is neither space nor a closing bracket. */
  lemma PrintedStart(v: Value)
    ensures Print(v) != ""
    ensures !IsSpace(Print(v)[0]) && Print(v)[0] != ']'
  {
    match v
    case IntValue(n) =>
      PrintDigits(if n < 0 then -n else n);
      if n >= 0 {
        assert IsDigit(Print(v)[0]);
      }
    case _ =>
  }

  lemma DigitsRead(n: nat, rest: string)
    requires Ends(rest)
    ensures ReadDigits(Decimal.Print(n) + rest) == Some((n, rest))
  {
    var digits := Decimal.Print(n);
    PrintDigits(n);
    NoLeadingZero(n);
    DigitRunIs(digits, rest);
    assert (digits + rest)[..|digits|] == digits;
    assert (digits + rest)[|digits|..] == rest;
    assert (digits + rest)[0] == digits[0];
  }

  lemma NegativeReads(n: nat, rest: string)
    requires Ends(rest)
    ensures ReadInteger("-" + Decimal.Print(n) + rest) == Some((0 - n as int, rest))
  {
    var t := "-" + Decimal.Print(n) + rest;
    assert t[1..] == Decimal.Print(n) + rest;
    DigitsRead(n, rest);
  }

  lemma IntegerReads(n: int, rest: string)
    requires Ends(rest)
    ensures PrintInt(n) != "" && (PrintInt(n)[0] == '-' || IsDigit(PrintInt(n)[0]))
    ensures ReadInteger(PrintInt(n) + rest) == Some((n, rest))
  {
    if n < 0 {
      NegativeReads(-n, rest);
    } else {
      PrintDigits(n);
      var digits := Decimal.Print(n);
      assert IsDigit(digits[0]);
      assert (digits + rest)[0] == digits[0];
      DigitsRead(n, rest);
    }
  }

  /** A printed string does not open with three quotes. */
  lemma NotMultiLine(s: string, rest: string)
    requires Ends(rest)
    ensures !("\"\"\"" <= Quote(s) + rest)
  {
    var t := Quote(s) + rest;
    if s == "" {
      assert t == "\"\"" + rest;
      assert rest != "" ==> t[2] == rest[0];
    } else {
      CharReads(TomlText, s[0], "");
      assert t[1] == EscapeChar(s[0])[0];
    }
  }

  lemma StringReads(s: string, rest: string)
    requires Ends(rest)
    ensures ReadValue(Quote(s) + rest) == if HasAstral(s) then None else Some((StrValue(s), rest))
  {
    QuoteReadsInToml(s, rest);
    NotMultiLine(s, rest);
  }

  lemma BoolReads(b: bool, rest: string)
    requires Ends(rest)
    ensures ReadValue(Print(BoolValue(b)) + rest) == Some((BoolValue(b), rest))
  {
    var word := Print(BoolValue(b));
    assert (word + rest)[|word|..] == rest;
  }

  /** An opening bracket hands over to the items. */
  lemma BracketReads(tail: string)
    ensures ReadValue("[" + tail) ==
      match ReadItems(SkipSpace(tail))
      case Some((items, rest)) => Some((ListValue(items), rest))
      case None => None
  {
    assert ("[" + tail)[1..] == tail;
  }

  lemma NumberReads(n: int, rest: string)
    requires Ends(rest)
    ensures ReadValue(PrintInt(n) + rest) == Some((IntValue(n), rest))
  {
    IntegerReads(n, rest);
    assert (PrintInt(n) + rest)[0] == PrintInt(n)[0];
  }

  lemma ListReads(items: seq<Value>, rest: string)
    requires ItemsReadBack(items, rest)
    ensures ReadsBack(ListValue(items), rest)
  {
    var tail := Join(items) + ("]" + rest);
    assert Print(ListValue(items)) + rest == "[" + tail;
    BracketReads(tail);
    JoinStart(items, rest);
  }

  /** A printed value reads back as itself; exactly when it holds an astral character, the
      printed text is not TOML. */
  lemma {:induction false} ValueReads(v: Value, rest: string)
    requires Ends(rest)
    ensures ReadValue(Print(v) + rest) == if Astral(v) then None else Some((v, rest))
    decreases v, 1
  {
    match v
    case StrValue(s) => StringReads(s, rest);
    case BoolValue(b) => BoolReads(b, rest);
    case IntValue(n) => NumberReads(n, rest);
    case ListValue(items) =>
      ItemsRead(items, rest);
      ListReads(items, rest);
  }

  lemma JoinStart(items: seq<Value>, rest: string)
    ensures SkipSpace(Join(items) + ("]" + rest)) == Join(items) + ("]" + rest)
  {
    if items != [] {
      PrintedStart(items[0]);
      assert (Join(items) + ("]" + rest))[0] == Print(items[0])[0];
    }
  }

  /** After a value and ", " the array goes on with what follows. */
  lemma CommaReads(t: string, v: Value, more: string)
    requires t != "" && t[0] != ']'
    requires SkipSpace(more) == more
    requires ReadValue(t) == Some((v, ", " + more))
    ensures ReadItems(t) ==
      match ReadItems(more)
      case Some((vs, rest)) => Some(([v] + vs, rest))
      case None => None
  {
    var tail := ", " + more;
    assert tail[1..] == " " + more;
    assert (" " + more)[1..] == more;
    assert SkipSpace(tail) == tail;
  }

  /** After the last value the bracket closes the array. */
  lemma LastItemReads(t: string, v: Value, rest: string)
    requires t != "" && t[0] != ']'
    requires ReadValue(t) == Some((v, "]" + rest))
    ensures ReadItems(t) == Some(([v], rest))
  {
    var tail := "]" + rest;
    assert SkipSpace(tail) == tail;
    assert tail[1..] == rest;
  }

  lemma FirstItem(items: seq<Value>, rest: string)
    requires |items| > 1
    ensures Join(items) + rest == Print(items[0]) + (", " + (Join(items[1..]) + rest))
  {
    var (first, more) := (Print(items[0]), Join(items[1..]));
    Naming.Associative(first, ", " + more, rest);
    Naming.Associative(", ", more, rest);
  }

  /** An item that is not TOML spoils the array. */
  lemma BadItem(t: string)
    requires t != "" && t[0] != ']' && ReadValue(t) == None
    ensures ReadItems(t) == None
  {
  }

  lemma OneItemReads(v: Value, rest: string)
    requires ReadValue(Print(v) + ("]" + rest)) == if Astral(v) then None else Some((v, "]" + rest))
    ensures ReadItems(Print(v) + ("]" + rest)) == if Astral(v) then None else Some(([v], rest))
  {
    PrintedStart(v);
    var t := Print(v) + ("]" + rest);
    assert t[0] == Print(v)[0];
    if Astral(v) {
      BadItem(t);
    } else {
      LastItemReads(t, v, rest);
    }
  }

  lemma MoreItemsRead(v: Value, more: string)
    requires SkipSpace(more) == more
    requires ReadValue(Print(v) + (", " + more)) == if Astral(v) then None else Some((v, ", " + more))
    ensures ReadItems(Print(v) + (", " + more)) ==
      if Astral(v) then None else
      match ReadItems(more)
      case Some((vs, rest)) => Some(([v] + vs, rest))
      case None => None
  {
    PrintedStart(v);
    var t := Print(v) + (", " + more);
    assert t[0] == Print(v)[0];
    if Astral(v) {
      BadItem(t);
    } else {
      CommaReads(t, v, more);
    }
  }

  /** What ItemsRead says of these items. */
  ghost predicate ItemsReadBack(items: seq<Value>, rest: string) {
    ReadItems(Join(items) + ("]" + rest)) == if SomeAstral(items) then None else Some((items, rest))
  }

  ghost predicate ReadsBack(v: Value, rest: string) {
    ReadValue(Print(v) + rest) == if Astral(v) then None else Some((v, rest))
  }

  lemma NoItems(rest: string)
    ensures ItemsReadBack([], rest)
  {
    assert Join([]) + ("]" + rest) == "]" + rest;
    assert ("]" + rest)[1..] == rest;
  }

  lemma OneItem(items: seq<Value>, rest: string)
    requires |items| == 1 && ReadsBack(items[0], "]" + rest)
    ensures ItemsReadBack(items, rest)
  {
    OneItemReads(items[0], rest);
    assert items[1..] == [];
    assert items == [items[0]];
  }

  lemma MoreItems(items: seq<Value>, rest: string)
    requires |items| > 1
    requires ReadsBack(items[0], ", " + (Join(items[1..]) + ("]" + rest)))
    requires ItemsReadBack(items[1..], rest)
    ensures ItemsReadBack(items, rest)
  {
    FirstItem(items, "]" + rest);
    JoinStart(items[1..], rest);
    MoreItemsRead(items[0], Join(items[1..]) + ("]" + rest));
    assert [items[0]] + items[1..] == items;
  }

  lemma {:induction false} ItemsRead(items: seq<Value>, rest: string)
    ensures ItemsReadBack(items, rest)
    decreases items, 0
  {
    if items == [] {
      NoItems(rest);
    } else if |items| == 1 {
      ValueReads(items[0], "]" + rest);
      OneItem(items, rest);
    } else {
      ItemsRead(items[1..], rest);
      ValueReads(items[0], ", " + (Join(items[1..]) + ("]" + rest)));
      MoreItems(items, rest);
    }
  }
}

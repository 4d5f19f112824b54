/** The node names: a dict of strings, dumped as a JSON object and loaded again. */
module NodeNames {
  import opened Wrappers
  import opened Quoting
  import opened Toml
  import Naming

  /** The names in the dict's order; its keys are distinct. */
  type Names = seq<(string, string)>

  /** json.dumps of a dict of strings. */
  function DumpNames(names: Names): string {
    "{" + (DumpMembers(names) + "}")
  }

  function DumpMember(name: (string, string)): string {
    Quote(name.0) + (": " + Quote(name.1))
  }

  function DumpMembers(names: Names): string {
    if names == [] then ""
    else if |names| == 1 then DumpMember(names[0])
    else DumpMember(names[0]) + (", " + DumpMembers(names[1..]))
  }

  /** `"key" : "value"`, with JSON's white space allowed. */
  function LoadMember(t: string): (r: Option<((string, string), string)>)
    ensures r.Some? ==> |r.value.1| < |t|
  {
    match ReadString(JsonText, t)
    case None => None
    case Some((key, afterKey)) =>
      var colon := SkipSpace(afterKey);
      if colon == "" || colon[0] != ':' then None else
      match ReadString(JsonText, SkipSpace(colon[1..]))
      case None => None
      case Some((value, rest)) => Some(((key, value), rest))
  }

  function LoadMembers(t: string): (r: Option<(Names, string)>)
    ensures r.Some? ==> |r.value.1| < |t|
    decreases |t|
  {
    match LoadMember(t)
    case None => None
    case Some((member, after)) =>
      var next := SkipSpace(after);
      if next == "" then None
      else if next[0] == '}' then Some(([member], next[1..]))
      else if next[0] == ',' then
        match LoadMembers(SkipSpace(next[1..]))
        case None => None
        case Some((members, rest)) => Some(([member] + members, rest))
      else None
  }

  /** json.loads, for objects whose values are strings. */
  function LoadNames(text: string): Option<Names> {
    var t := SkipSpace(text);
    if t == "" || t[0] != '{' then None else
    var inside := SkipSpace(t[1..]);
    if inside != "" && inside[0] == '}' then
      if SkipSpace(inside[1..]) == "" then Some([]) else None
    else
      match LoadMembers(inside)
      case None => None
      case Some((names, rest)) => if SkipSpace(rest) == "" then Some(names) else None
  }

  /** After the key, a colon and a space the value follows. */
  lemma ColonReads(t: string, key: string, value: string, rest: string)
    requires ReadString(JsonText, t) == Some((key, ": " + (Quote(value) + rest)))
    ensures LoadMember(t) == Some(((key, value), rest))
  {
    var tail := Quote(value) + rest;
    var colon := ": " + tail;
    assert SkipSpace(colon) == colon;
    assert colon[1..] == " " + tail;
    assert (" " + tail)[1..] == tail;
    assert SkipSpace(tail) == tail;
    QuoteReadsInJson(value, rest);
  }

  lemma MemberReads(name: (string, string), rest: string)
    ensures LoadMember(DumpMember(name) + rest) == Some((name, rest))
  {
    var (key, value) := (Quote(name.0), Quote(name.1));
    Naming.Associative(key, ": " + value, rest);
    Naming.Associative(": ", value, rest);
    QuoteReadsInJson(name.0, ": " + (value + rest));
    ColonReads(DumpMember(name) + rest, name.0, name.1, rest);
  }

  lemma MembersStart(names: Names, rest: string)
    requires names != []
    ensures SkipSpace(DumpMembers(names) + rest) == DumpMembers(names) + rest
    ensures DumpMembers(names) != "" && DumpMembers(names)[0] == '"'
  {
    assert DumpMembers(names)[0] == DumpMember(names[0])[0];
  }

  /** After a member and ", " the object goes on with what follows. */
  lemma MemberCommaReads(t: string, member: (string, string), more: string)
    requires SkipSpace(more) == more
    requires LoadMember(t) == Some((member, ", " + more))
    ensures LoadMembers(t) ==
      match LoadMembers(more)
      case None => None
      case Some((members, rest)) => Some(([member] + members, rest))
  {
    var tail := ", " + more;
    assert tail[1..] == " " + more;
    assert (" " + more)[1..] == more;
    assert SkipSpace(tail) == tail;
  }

  /** After a member and the closing brace the object is complete. */
  lemma LastMemberReads(t: string, member: (string, string), rest: string)
    requires LoadMember(t) == Some((member, "}" + rest))
    ensures LoadMembers(t) == Some(([member], rest))
  {
    var tail := "}" + rest;
    assert SkipSpace(tail) == tail;
    assert tail[1..] == rest;
  }

  lemma OneMemberReads(names: Names, rest: string)
    requires |names| == 1
    ensures LoadMembers(DumpMembers(names) + ("}" + rest)) == Some((names, rest))
  {
    MemberReads(names[0], "}" + rest);
    LastMemberReads(DumpMembers(names) + ("}" + rest), names[0], rest);
    assert names == [names[0]];
  }

  lemma FirstMember(names: Names, rest: string)
    requires |names| > 1
    ensures DumpMembers(names) + rest == DumpMember(names[0]) + (", " + (DumpMembers(names[1..]) + rest))
  {
    var (first, more) := (DumpMember(names[0]), DumpMembers(names[1..]));
    Naming.Associative(first, ", " + more, rest);
    Naming.Associative(", ", more, rest);
  }

  lemma {:induction false} MembersRead(names: Names, rest: string)
    requires names != []
    ensures LoadMembers(DumpMembers(names) + ("}" + rest)) == Some((names, rest))
  {
    if |names| == 1 {
      OneMemberReads(names, rest);
    } else {
      MembersRead(names[1..], rest);
      FirstMember(names, "}" + rest);
      var more := DumpMembers(names[1..]) + ("}" + rest);
      MemberReads(names[0], ", " + more);
      MembersStart(names[1..], "}" + rest);
      MemberCommaReads(DumpMember(names[0]) + (", " + more), names[0], more);
      assert [names[0]] + names[1..] == names;
    }
  }

  /** The node names come back from their JSON text, whatever their characters. */
  lemma NamesRoundTrip(names: Names)
    ensures LoadNames(DumpNames(names)) == Some(names)
  {
    var text := DumpNames(names);
    assert SkipSpace(text) == text;
    var inside := DumpMembers(names) + "}";
    assert text[1..] == inside;
    if names == [] {
      assert inside == "}";
      assert SkipSpace(inside) == inside;
      assert inside[1..] == "";
    } else {
      MembersStart(names, "}");
      assert inside[0] == '"';
      MembersRead(names, "");
      assert "}" + "" == "}";
    }
  }
}

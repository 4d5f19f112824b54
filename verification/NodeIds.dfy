/** The node-id list: joined with commas by the task manager, split, trimmed and filtered by
    the connector. */
module NodeIds {
  import opened Naming

  /** ",".join(ids). */
  function Join(ids: seq<string>): string {
    if ids == [] then ""
    else if |ids| == 1 then ids[0]
    else ids[0] + ("," + Join(ids[1..]))
  }

  /** s.split(","). */
  function Split(s: string): seq<string>
    decreases |s|
  {
    var i := IndexOf(s, ',');
    if i == |s| then [s] else [s[..i]] + Split(s[i + 1..])
  }

  /** What str.strip() strips. */
  predicate IsSpace(c: char) {
    var n := c as int;
    || 0x09 <= n <= 0x0D || 0x1C <= n <= 0x20
    || n == 0x85 || n == 0xA0 || n == 0x1680
    || 0x2000 <= n <= 0x200A
    || n == 0x2028 || n == 0x2029 || n == 0x202F || n == 0x205F || n == 0x3000
  }

  function TrimLeft(s: string): string {
    if s != "" && IsSpace(s[0]) then TrimLeft(s[1..]) else s
  }

  function TrimRight(s: string): string {
    if s != "" && IsSpace(s[|s| - 1]) then TrimRight(s[..|s| - 1]) else s
  }

  /** s.strip(). */
  function Trim(s: string): string {
    TrimRight(TrimLeft(s))
  }

  /** [n.strip() for n in parts if n.strip()]. */
  function Clean(parts: seq<string>): seq<string> {
    if parts == [] then []
    else (if Trim(parts[0]) == "" then [] else [Trim(parts[0])]) + Clean(parts[1..])
  }

  function Read(s: string): seq<string> {
    Clean(Split(s))
  }

  /** A node id that survives: non-empty, trimmed and comma-free. */
  predicate IsPlain(id: string) {
    id != "" && !IsSpace(id[0]) && !IsSpace(id[|id| - 1]) && ',' !in id
  }

  predicate AllPlain(ids: seq<string>) {
    forall i :: 0 <= i < |ids| ==> IsPlain(ids[i])
  }

  // ---------------------------------------------------------------- what is read is plain

  lemma {:induction false} TrimLeftIs(s: string)
    ensures TrimLeft(s) == "" || !IsSpace(TrimLeft(s)[0])
    ensures ',' !in s ==> ',' !in TrimLeft(s)
  {
    if s != "" && IsSpace(s[0]) {
      TrimLeftIs(s[1..]);
    }
  }

  lemma {:induction false} TrimRightIs(s: string)
    ensures TrimRight(s) == "" || !IsSpace(TrimRight(s)[|TrimRight(s)| - 1])
    ensures ',' !in s ==> ',' !in TrimRight(s)
    ensures TrimRight(s) == "" || TrimRight(s)[0] == s[0]
  {
    if s != "" && IsSpace(s[|s| - 1]) {
      TrimRightIs(s[..|s| - 1]);
    }
  }

  lemma TrimIsPlain(s: string)
    requires ',' !in s
    ensures Trim(s) == "" || IsPlain(Trim(s))
  {
    TrimLeftIs(s);
    TrimRightIs(TrimLeft(s));
  }

  lemma {:induction false} SplitIsCommaFree(s: string)
    ensures forall i :: 0 <= i < |Split(s)| ==> ',' !in Split(s)[i]
    decreases |s|
  {
    var i := IndexOf(s, ',');
    BeforeIndex(s, ',');
    if i < |s| {
      SplitIsCommaFree(s[i + 1..]);
    }
  }

  lemma {:induction false} BeforeIndex(s: string, c: char)
    ensures c !in s[..IndexOf(s, c)]
  {
    if s != "" && s[0] != c {
      BeforeIndex(s[1..], c);
      assert s[..IndexOf(s, c)] == [s[0]] + s[1..][..IndexOf(s[1..], c)];
    }
  }

  lemma {:induction false} CleanIsPlain(parts: seq<string>)
    requires forall i :: 0 <= i < |parts| ==> ',' !in parts[i]
    ensures AllPlain(Clean(parts))
  {
    if parts != [] {
      TrimIsPlain(parts[0]);
      CleanIsPlain(parts[1..]);
    }
  }

  // ---------------------------------------------------------------- plain ids come back

  lemma PlainIsTrimmed(id: string)
    requires IsPlain(id)
    ensures Trim(id) == id
  {
  }

  lemma {:induction false} CleanKeepsPlain(ids: seq<string>)
    requires AllPlain(ids)
    ensures Clean(ids) == ids
  {
    if ids != [] {
      PlainIsTrimmed(ids[0]);
      CleanKeepsPlain(ids[1..]);
      assert [ids[0]] + ids[1..] == ids;
    }
  }

  lemma NotFound(s: string, c: char)
    requires c !in s
    ensures IndexOf(s, c) == |s|
  {
    BeforeIndex(s, c);
    if IndexOf(s, c) < |s| {
      FoundAt(s, c);
    }
  }

  lemma {:induction false} FoundAt(s: string, c: char)
    requires IndexOf(s, c) < |s|
    ensures s[IndexOf(s, c)] == c
  {
    if s[0] != c {
      FoundAt(s[1..], c);
    }
  }

  lemma SplitAtComma(id: string, rest: string)
    requires ',' !in id
    ensures Split(id + ("," + rest)) == [id] + Split(rest)
  {
    IndexOfIs(id, ',', rest);
    assert "," == [','];
    var s := id + ("," + rest);
    assert s[..|id|] == id;
    assert s[|id| + 1..] == rest;
  }

  // ---------------------------------------------------------------- what others are read as

  /** The white space characters, one by one. */
  const WHITE :=
    "\t\n\U{B}\U{C}\r\U{1C}\U{1D}\U{1E}\U{1F} \U{85}\U{A0}\U{1680}" +
    "\U{2000}\U{2001}\U{2002}\U{2003}\U{2004}\U{2005}\U{2006}\U{2007}\U{2008}\U{2009}\U{200A}" +
    "\U{2028}\U{2029}\U{202F}\U{205F}\U{3000}"

  lemma SpaceIsWhite(c: char)
    ensures IsSpace(c) <==> c in WHITE
  {
    assert IsSpace(c) ==> exists i :: 0 <= i < |WHITE| && WHITE[i] == c by {
      var n := c as int;
      var i := if 0x09 <= n <= 0x0D then n - 0x09
               else if 0x1C <= n <= 0x20 then n - 0x1C + 5
               else if n == 0x85 then 10 else if n == 0xA0 then 11 else if n == 0x1680 then 12
               else if 0x2000 <= n <= 0x200A then n - 0x2000 + 13
               else if n == 0x2028 then 24 else if n == 0x2029 then 25 else if n == 0x202F then 26
               else if n == 0x205F then 27 else 28;
      assert IsSpace(c) ==> WHITE[i] == c;
    }
  }

  predicate AllWhite(s: string) {
    forall i :: 0 <= i < |s| ==> s[i] in WHITE
  }

  lemma {:induction false} TrimLeftDrops(a: string, s: string)
    requires AllWhite(a) && (s == "" || s[0] !in WHITE)
    ensures TrimLeft(a + s) == s
  {
    if a == "" {
      assert a + s == s;
      if s != "" {
        SpaceIsWhite(s[0]);
      }
    } else {
      SpaceIsWhite(a[0]);
      assert (a + s)[1..] == a[1..] + s;
      TrimLeftDrops(a[1..], s);
    }
  }

  lemma {:induction false} TrimRightDrops(s: string, b: string)
    requires AllWhite(b) && (s == "" || s[|s| - 1] !in WHITE)
    ensures TrimRight(s + b) == s
  {
    if b == "" {
      assert s + b == s;
      if s != "" {
        SpaceIsWhite(s[|s| - 1]);
      }
    } else {
      SpaceIsWhite(b[|b| - 1]);
      assert (s + b)[..|s + b| - 1] == s + b[..|b| - 1];
      TrimRightDrops(s, b[..|b| - 1]);
    }
  }

  /** White space around an id goes, and nothing else. */
  lemma TrimIs(a: string, id: string, b: string)
    requires AllWhite(a) && AllWhite(b)
    requires id == "" || (id[0] !in WHITE && id[|id| - 1] !in WHITE)
    ensures Trim(a + (id + b)) == id
  {
    if id == "" {
      assert a + (id + b) == (a + b) + "";
      TrimLeftDrops(a + b, "");
      assert "" + "" == "";
      TrimRightDrops("", "");
    } else {
      TrimLeftDrops(a, id + b);
      TrimRightDrops(id, b);
    }
  }

  lemma {:induction false} SplitParts(parts: seq<string>)
    requires parts != [] && forall i :: 0 <= i < |parts| ==> ',' !in parts[i]
    ensures Split(Join(parts)) == parts
  {
    if |parts| == 1 {
      NotFound(parts[0], ',');
      assert parts == [parts[0]];
    } else {
      SplitParts(parts[1..]);
      SplitAtComma(parts[0], Join(parts[1..]));
      assert [parts[0]] + parts[1..] == parts;
    }
  }

  /** The part is the id with white space around it. */
  ghost predicate Pads(part: string, id: string) {
    exists a, b :: AllWhite(a) && AllWhite(b) && part == a + (id + b)
  }

  lemma {:induction false} CleanPadded(parts: seq<string>, ids: seq<string>)
    requires |parts| == |ids| && AllPlain(ids)
    requires forall i :: 0 <= i < |ids| ==> Pads(parts[i], ids[i])
    ensures Clean(parts) == ids
  {
    if ids != [] {
      var a, b :| AllWhite(a) && AllWhite(b) && parts[0] == a + (ids[0] + b);
      SpaceIsWhite(ids[0][0]);
      SpaceIsWhite(ids[0][|ids[0]| - 1]);
      TrimIs(a, ids[0], b);
      CleanPadded(parts[1..], ids[1..]);
      assert [ids[0]] + ids[1..] == ids;
    }
  }

  /** Ids with white space around them are read without it. */
  lemma ReadPadded(parts: seq<string>, ids: seq<string>)
    requires |parts| == |ids| && ids != [] && AllPlain(ids)
    requires forall i :: 0 <= i < |ids| ==> Pads(parts[i], ids[i])
    ensures Read(Join(parts)) == ids
  {
    hide Split, Clean, Join, Pads;
    forall i | 0 <= i < |parts| ensures ',' !in parts[i] {
      assert IsPlain(ids[i]);
      PadsHasNoComma(parts[i], ids[i]);
    }
    SplitParts(parts);
    CleanPadded(parts, ids);
  }

  lemma PadsHasNoComma(part: string, id: string)
    requires Pads(part, id) && ',' !in id
    ensures ',' !in part
  {
    var a, b :| AllWhite(a) && AllWhite(b) && part == a + (id + b);
    SpaceIsWhite(',');
    assert forall i :: 0 <= i < |a| ==> a[i] in WHITE;
  }

  /** A list of node ids comes back as itself exactly if every id is plain. */
  lemma ReadJoin(ids: seq<string>)
    ensures Read(Join(ids)) == ids <==> AllPlain(ids)
  {
    SplitIsCommaFree(Join(ids));
    CleanIsPlain(Split(Join(ids)));
    if AllPlain(ids) {
      if ids == [] {
        assert Split("") == [""];
        assert Clean([""]) == [];
      } else {
        SplitParts(ids);
        CleanKeepsPlain(ids);
      }
    }
  }
}

/** The folder watcher's move of a definition file into its processed or failed folder, under
    a name that is still free there. */
module FileMove {
  import opened Decimal
  import Naming

  /** The position of the last dot, or |name| if there is none. */
  function LastDot(name: string): (i: nat)
    ensures i <= |name|
    ensures i < |name| ==> name[i] == '.'
    ensures forall j :: i < j < |name| ==> name[j] != '.'
    ensures i == |name| ==> '.' !in name
  {
    if name == "" then 0
    else if name[|name| - 1] == '.' then |name| - 1
    else
      var i := LastDot(name[..|name| - 1]);
      if i == |name| - 1 then |name| else i
  }

  predicate HasSuffix(name: string) {
    0 < LastDot(name) < |name| - 1
  }

  function Suffix(name: string): string {
    if HasSuffix(name) then name[LastDot(name)..] else ""
  }

  function Stem(name: string): string {
    if HasSuffix(name) then name[..LastDot(name)] else name
  }

  /** The n-th alternative name. */
  function Numbered(name: string, n: nat): string {
    Stem(name) + (("." + Print(n)) + Suffix(name))
  }

  lemma NumberedIsInjective(name: string, m: nat, n: nat)
    requires Numbered(name, m) == Numbered(name, n)
    ensures m == n
  {
    CancelFront(Stem(name), ("." + Print(m)) + Suffix(name), ("." + Print(n)) + Suffix(name));
    CancelBack("." + Print(m), "." + Print(n), Suffix(name));
    CancelFront(".", Print(m), Print(n));
    PrintIsInjective(m, n);
  }

  lemma CancelFront(a: string, b: string, c: string)
    requires a + b == a + c
    ensures b == c
  {
    assert (a + b)[|a|..] == b;
    assert (a + c)[|a|..] == c;
  }

  lemma CancelBack(a: string, b: string, c: string)
    requires a + c == b + c
    ensures a == b
  {
    assert |a| == |b|;
    assert (a + c)[..|a|] == a;
    assert (b + c)[..|b|] == b;
  }

  lemma NumberedDiffers(name: string, n: nat)
    ensures Numbered(name, n) != name
  {
    assert Stem(name) + Suffix(name) == name;
    PrintDigits(n);
    assert |Numbered(name, n)| > |name|;
  }

  /** A file keeps its suffix when it is numbered, provided it has one; a name without a
      suffix gets the number for a suffix. */
  lemma NumberedKeepsSuffix(name: string, n: nat)
    requires name != ""
    ensures Suffix(Numbered(name, n)) == if HasSuffix(name) then Suffix(name) else "." + Print(n)
  {
    PrintDigits(n);
    if HasSuffix(name) {
      Naming.Associative(Stem(name), "." + Print(n), Suffix(name));
      DotSplits(Stem(name) + ("." + Print(n)), Suffix(name));
    } else {
      assert ("." + Print(n)) + "" == "." + Print(n);
      DotSplits(name, "." + Print(n));
    }
  }

  lemma DotSplits(stem: string, suffix: string)
    requires stem != "" && |suffix| > 1 && suffix[0] == '.' && '.' !in suffix[1..]
    ensures Suffix(stem + suffix) == suffix
  {
    var name := stem + suffix;
    assert name[|stem|] == '.';
    forall j | |stem| < j < |name| ensures name[j] != '.' {
      assert name[j] == suffix[1..][j - |stem| - 1];
    }
    assert LastDot(name) == |stem|;
    assert name[|stem|..] == suffix;
  }

  /** The number goes between the stem and the extension ... */
  lemma NumberedIs(stem: string, ext: string, n: nat)
    requires stem != "" && ext != "" && '.' !in ext
    ensures Numbered(stem + "." + ext, n) == stem + "." + Print(n) + "." + ext
  {
    hide LastDot, Print;
    var name := stem + "." + ext;
    Naming.Associative(stem, ".", ext);
    assert ("." + ext)[1..] == ext;
    DotSplits(stem, "." + ext);
    assert Stem(name) + Suffix(name) == name;
    CancelBack(Stem(name), stem, "." + ext);
    Naming.Associative(stem, "." + Print(n), "." + ext);
    Naming.Associative(stem, ".", Print(n));
    Naming.Associative(stem + "." + Print(n), ".", ext);
  }

  /** ... and behind a name that has no extension: one that has no dot but perhaps at its
      start, or one that ends in a dot. */
  lemma NumberedPlainIs(name: string, n: nat)
    requires name != "" && ('.' !in name[1..] || name[|name| - 1] == '.')
    ensures Numbered(name, n) == name + "." + Print(n)
  {
    var i := LastDot(name);
    assert 0 < i < |name| ==> name[i] == name[1..][i - 1];
    Naming.Associative(name, ".", Print(n));
    assert ("." + Print(n)) + "" == "." + Print(n);
  }

  // ---------------------------------------------------------------- the search

  /** The name itself and its first alternatives. */
  function Tried(name: string, n: nat): set<string> {
    if n == 0 then {name} else Tried(name, n - 1) + {Numbered(name, n)}
  }

  lemma {:induction false} TriedAre(name: string, n: nat, x: string)
    ensures x in Tried(name, n) <==> x == name || exists m: nat :: 1 <= m <= n && x == Numbered(name, m)
  {
    if n > 0 {
      TriedAre(name, n - 1, x);
    }
  }

  lemma {:induction false} TriedAreDistinct(name: string, n: nat)
    ensures |Tried(name, n)| == n + 1
  {
    if n > 0 {
      TriedAreDistinct(name, n - 1);
      TriedAre(name, n - 1, Numbered(name, n));
      NumberedDiffers(name, n);
      if Numbered(name, n) in Tried(name, n - 1) {
        var m: nat :| 1 <= m <= n - 1 && Numbered(name, n) == Numbered(name, m);
        NumberedIsInjective(name, m, n);
      }
    }
  }

  lemma {:induction false} SubsetIsSmaller<T>(a: set<T>, b: set<T>)
    requires a <= b
    ensures |a| <= |b|
  {
    if a != {} {
      var x :| x in a;
      SubsetIsSmaller(a - {x}, b - {x});
    }
  }

  /** By the pigeonhole principle, only so many alternatives can be taken. */
  lemma TriedAreFew(name: string, n: nat, taken: set<string>)
    requires Tried(name, n) <= taken
    ensures n + 1 <= |taken|
  {
    TriedAreDistinct(name, n);
    SubsetIsSmaller(Tried(name, n), taken);
  }

  /** The search stops within |taken| + 1 probes, at the first name that is free. */
  method ChooseTarget(name: string, taken: set<string>) returns (target: string, probes: nat)
    ensures target !in taken
    ensures probes <= |taken| + 1
    ensures target == name || exists n: nat :: n >= 1 && target == Numbered(name, n) && Tried(name, n - 1) <= taken
    ensures name !in taken ==> target == name
  {
    probes, target := 1, name;
    if name in taken {
      TriedAreFew(name, 0, taken);
      var n := 1;
      probes := 2;
      while Numbered(name, n) in taken
        invariant n >= 1 && probes == n + 1
        invariant Tried(name, n - 1) <= taken
        invariant n <= |taken|
        decreases |taken| - n
      {
        TriedAreFew(name, n, taken);
        n := n + 1;
        probes := probes + 1;
      }
      target := Numbered(name, n);
    }
  }

  // ---------------------------------------------------------------- moving

  class Folder {
    var files: map<string, string>

    constructor ()
      ensures files == map[]
    {
      files := map[];
    }
  }

  /** Nothing of before is gone or changed. */
  predicate Keeps(before: map<string, string>, after: map<string, string>) {
    forall f :: f in before ==> f in after && after[f] == before[f]
  }

  /** The move of one file.  It may fail, as when the other replica has already taken the
      file; then nothing changes. */
  method Move(name: string, source: Folder, dest: Folder, fails: bool) returns (target: string)
    requires source != dest
    modifies source, dest
    ensures target !in old(dest.files)
    ensures
      if fails || name !in old(source.files) then source.files == old(source.files) && dest.files == old(dest.files)
      else (source.files == old(source.files) - {name}
            && dest.files == old(dest.files)[target := old(source.files)[name]])
  {
    var probes;
    target, probes := ChooseTarget(name, dest.files.Keys);
    if !fails && name in source.files {
      dest.files := dest.files[target := source.files[name]];
      source.files := source.files - {name};
    }
  }

  function Holding(files: map<string, string>, content: string): set<string> {
    set f | f in files && files[f] == content
  }

  /** How many files have this content. */
  function Copies(files: map<string, string>, content: string): nat {
    |Holding(files, content)|
  }

  lemma CopiesWithout(files: map<string, string>, name: string, content: string)
    requires name in files
    ensures Copies(files, content) == Copies(files - {name}, content) + if files[name] == content then 1 else 0
  {
    if files[name] == content {
      assert Holding(files, content) == Holding(files - {name}, content) + {name};
    } else {
      assert Holding(files, content) == Holding(files - {name}, content);
    }
  }

  /** Moving a file makes no copy and loses none. */
  lemma CopiesMove(source: map<string, string>, dest: map<string, string>, name: string, target: string,
                   content: string)
    requires name in source && target !in dest
    ensures Copies(source - {name}, content) + Copies(dest[target := source[name]], content)
         == Copies(source, content) + Copies(dest, content)
  {
    var arrived := dest[target := source[name]];
    CopiesWithout(source, name, content);
    CopiesWithout(arrived, target, content);
    assert arrived - {target} == dest;
  }

  // ---------------------------------------------------------------- a watched folder

  /** A file is put into the watched folder, or the watcher moves one out of it. */
  datatype Action = Arrive(name: string, content: string) | Process(name: string, fails: bool)

  /** The watched folder after these actions, whatever names the moved files got. */
  function SourceAfter(source: map<string, string>, actions: seq<Action>): map<string, string> {
    if actions == [] then source else
    var before := SourceAfter(source, actions[..|actions| - 1]);
    match actions[|actions| - 1]
    case Arrive(name, content) => before[name := content]
    case Process(name, fails) => if fails then before else before - {name}
  }

  /** How many files with this content arrived, less those that a later arrival of the same
      name replaced before they were moved. */
  function Arrived(source: map<string, string>, actions: seq<Action>, content: string): int {
    if actions == [] then 0 else
    var earlier := actions[..|actions| - 1];
    var before := SourceAfter(source, earlier);
    Arrived(source, earlier, content)
    + match actions[|actions| - 1]
      case Arrive(name, c) =>
        (if c == content then 1 else 0) - (if name in before && before[name] == content then 1 else 0)
      case Process(_, _) => 0
  }

  /** Between two states of the folders nothing in the destination was lost, and every
      content is there as often as before, plus what arrived. */
  ghost predicate Moved(source0: map<string, string>, dest0: map<string, string>, actions: seq<Action>,
                        source: map<string, string>, dest: map<string, string>)
  {
    && Keeps(dest0, dest)
    && source == SourceAfter(source0, actions)
    && forall c :: Copies(source, c) + Copies(dest, c) ==
         Copies(source0, c) + Copies(dest0, c) + Arrived(source0, actions, c)
  }

  lemma CopiesArrive(source: map<string, string>, name: string, content: string, c: string)
    ensures Copies(source[name := content], c) ==
      Copies(source, c) + (if content == c then 1 else 0) - (if name in source && source[name] == c then 1 else 0)
  {
    CopiesWithout(source[name := content], name, c);
    assert source[name := content] - {name} == source - {name};
    if name in source {
      CopiesWithout(source, name, c);
    } else {
      assert source - {name} == source;
    }
  }

  lemma OneMoreAction(actions: seq<Action>, a: Action)
    ensures (actions + [a])[..|actions + [a]| - 1] == actions && (actions + [a])[|actions + [a]| - 1] == a
  {
  }

  lemma MovedArrive(source0: map<string, string>, dest0: map<string, string>, actions: seq<Action>,
                    source: map<string, string>, dest: map<string, string>, name: string, content: string)
    requires Moved(source0, dest0, actions, source, dest)
    ensures Moved(source0, dest0, actions + [Arrive(name, content)], source[name := content], dest)
  {
    OneMoreAction(actions, Arrive(name, content));
    forall c
      ensures Copies(source[name := content], c) + Copies(dest, c)
           == Copies(source0, c) + Copies(dest0, c) + Arrived(source0, actions + [Arrive(name, content)], c)
    {
      CopiesArrive(source, name, content, c);
    }
  }

  lemma MovedProcess(source0: map<string, string>, dest0: map<string, string>, actions: seq<Action>,
                     source: map<string, string>, dest: map<string, string>, name: string, fails: bool, target: string)
    requires Moved(source0, dest0, actions, source, dest) && target !in dest
    ensures
      if fails || name !in source then Moved(source0, dest0, actions + [Process(name, fails)], source, dest)
      else Moved(source0, dest0, actions + [Process(name, fails)], source - {name}, dest[target := source[name]])
  {
    OneMoreAction(actions, Process(name, fails));
    if !fails && name in source {
      forall c
        ensures Copies(source - {name}, c) + Copies(dest[target := source[name]], c)
             == Copies(source0, c) + Copies(dest0, c) + Arrived(source0, actions + [Process(name, fails)], c)
      {
        CopiesMove(source, dest, name, target, c);
      }
    } else {
      assert name !in source ==> source - {name} == source;
    }
  }

  method Act(action: Action, source: Folder, dest: Folder,
             ghost source0: map<string, string>, ghost dest0: map<string, string>,
             ghost earlier: seq<Action>)
    requires source != dest && Moved(source0, dest0, earlier, source.files, dest.files)
    modifies source, dest
    ensures Moved(source0, dest0, earlier + [action], source.files, dest.files)
  {
    match action
    case Arrive(name, content) =>
      MovedArrive(source0, dest0, earlier, source.files, dest.files, name, content);
      source.files := source.files[name := content];
    case Process(name, fails) =>
      ghost var (before, there) := (source.files, dest.files);
      var target := Move(name, source, dest, fails);
      MovedProcess(source0, dest0, earlier, before, there, name, fails, target);
  }

  /** Any number of moves by one process, with files arriving in between, also under names
      that were moved before: every file that was in the destination is still there with its
      content, and of every content there are as many files in the two folders as before and
      as arrived. */
  method MoveAll(actions: seq<Action>, source: Folder, dest: Folder)
    requires source != dest
    modifies source, dest
    ensures Moved(old(source.files), old(dest.files), actions, source.files, dest.files)
  {
    ghost var source0, dest0 := source.files, dest.files;
    for i := 0 to |actions|
      invariant Moved(source0, dest0, actions[..i], source.files, dest.files)
    {
      Act(actions[i], source, dest, source0, dest0, actions[..i]);
      assert actions[..i] + [actions[i]] == actions[..i + 1];
    }
    assert actions[..|actions|] == actions;
  }
}

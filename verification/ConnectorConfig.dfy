/** The connector's configuration, printed by the task manager as the `environment` array of
    a Telegraf config and read back by the connector from its environment.

    Two texts are nested: the node names are a JSON object inside a TOML string. */
module ConnectorConfig {
  import opened Wrappers
  import opened Quoting
  import opened Toml
  import Decimal
  import Naming
  import NodeIds
  import NodeNames

  /** What `str` prints for a float: plain ASCII text. */
  type FloatText = s: string | IsAscii(s) witness "4"

  datatype Options = Options(
    pipelineId: string,
    endpoint: string,
    nodeIds: seq<string>,
    nodeNames: NodeNames.Names,
    intervalMs: int,
    connectTimeout: Option<FloatText>)

  /** What `_config` returns, as far as these options go; the timeout stays text. */
  datatype Config = Config(
    pipelineId: string,
    endpoint: string,
    nodeIds: seq<string>,
    nodeNames: map<string, string>,
    intervalMs: int,
    connectTimeout: string)

  predicate IsAscii(s: string) {
    forall i :: 0 <= i < |s| ==> ' ' <= s[i] <= '~'
  }

  type Environ = map<string, string>

  type Pairs = seq<(string, string)>

  /** The dict of these pairs: of two equal keys the later one wins. */
  function Dict(variables: Pairs): Environ {
    if variables == [] then map[] else
    var last := variables[|variables| - 1];
    Dict(variables[..|variables| - 1])[last.0 := last.1]
  }

  // ---------------------------------------------------------------- printing

  /** The dict that `_opcua_environment` fills, in order. */
  function Variables(o: Options): Pairs {
    [("PIPELINE_ID", o.pipelineId),
     ("OPCUA_ENDPOINT", o.endpoint),
     ("OPCUA_NODE_IDS", NodeIds.Join(o.nodeIds)),
     ("OPCUA_NODE_NAMES_JSON", NodeNames.DumpNames(o.nodeNames)),
     ("OPCUA_PUBLISHING_INTERVAL_MS", Decimal.PrintInt(o.intervalMs))]
    + match o.connectTimeout
      case Some(timeout) => [("OPCUA_CONNECT_TIMEOUT_S", timeout)]
      case None => []
  }

  function Entry(variable: (string, string)): string {
    variable.0 + ("=" + variable.1)
  }

  function Entries(variables: Pairs): (r: seq<Value>)
    ensures |r| == |variables|
    ensures forall i :: 0 <= i < |r| ==> r[i] == StrValue(Entry(variables[i]))
  {
    seq(|variables|, i requires 0 <= i < |variables| => StrValue(Entry(variables[i])))
  }

  /** The text of the `environment` array. */
  function Environment(o: Options): string {
    Print(ListValue(Entries(Variables(o))))
  }

  // ---------------------------------------------------------------- reading

  predicate HasNul(s: string) {
    exists i :: 0 <= i < |s| && s[i] == '\0'
  }

  /** The environment a process starts with: a later entry for a name wins, and an entry
      with a NUL character cannot be passed at all. */
  function Start(entries: seq<Value>): Option<Environ> {
    if entries == [] then Some(map[]) else
    var last := entries[|entries| - 1];
    match Start(entries[..|entries| - 1])
    case None => None
    case Some(env) =>
      if !last.StrValue? || HasNul(last.s) then None else
      var i := Naming.IndexOf(last.s, '=');
      if i == |last.s| then Some(env) else Some(env[last.s[..i] := last.s[i + 1..]])
  }

  /** Telegraf reads the array and starts the connector. */
  function Launch(text: string): Option<Environ> {
    match ReadValue(text)
    case Some((ListValue(entries), rest)) => if SkipSpace(rest) == "" then Start(entries) else None
    case _ => None
  }

  function GetEnv(env: Environ, name: string, default: string): string {
    if name in env then env[name] else default
  }

  datatype Outcome =
    | NotStarted
    | EndpointMissing
    | NodeIdsMissing
    | NamesInvalid
    | IntervalInvalid
    | Configured(config: Config)

  function ReadNames(env: Environ): Option<NodeNames.Names> {
    var text := GetEnv(env, "OPCUA_NODE_NAMES_JSON", "");
    NodeNames.LoadNames(if text == "" then "{}" else text)
  }

  /** _config. */
  function Configure(env: Environ): Outcome {
    var endpoint := GetEnv(env, "OPCUA_ENDPOINT", "");
    var nodeIds := NodeIds.Read(GetEnv(env, "OPCUA_NODE_IDS", ""));
    if endpoint == "" then EndpointMissing
    else if nodeIds == [] then NodeIdsMissing
    else
      match ReadNames(env)
      case None => NamesInvalid
      case Some(names) =>
        match Decimal.ReadInt(GetEnv(env, "OPCUA_PUBLISHING_INTERVAL_MS", "500"))
        case None => IntervalInvalid
        case Some(intervalMs) =>
          Configured(Config(
            GetEnv(env, "PIPELINE_ID", "unknown"), endpoint, nodeIds, Dict(names), intervalMs,
            GetEnv(env, "OPCUA_CONNECT_TIMEOUT_S", "4")))
  }

  function ReadBack(text: string): Outcome {
    match Launch(text)
    case Some(env) => Configure(env)
    case None => NotStarted
  }

  // ---------------------------------------------------------------- characters

  /** A character that both TOML escapes and process environments carry. */
  predicate Passes(c: char) {
    !IsAstral(c) && c != '\0'
  }

  predicate AllPass(s: string) {
    forall i :: 0 <= i < |s| ==> Passes(s[i])
  }

  lemma ConcatPasses(a: string, b: string)
    ensures AllPass(a + b) <==> AllPass(a) && AllPass(b)
  {
    if AllPass(a + b) {
      assert forall i :: 0 <= i < |a| ==> (a + b)[i] == a[i];
      assert forall i :: 0 <= i < |b| ==> (a + b)[|a| + i] == b[i];
    }
  }

  lemma {:induction false} JoinPasses(ids: seq<string>)
    ensures AllPass(NodeIds.Join(ids)) <==> forall i :: 0 <= i < |ids| ==> AllPass(ids[i])
  {
    if |ids| > 1 {
      JoinPasses(ids[1..]);
      ConcatPasses(",", NodeIds.Join(ids[1..]));
      ConcatPasses(ids[0], "," + NodeIds.Join(ids[1..]));
      assert forall i :: 1 <= i < |ids| ==> ids[i] == ids[1..][i - 1];
    }
  }

  lemma EscapeCharIsAscii(c: char)
    ensures IsAscii(EscapeChar(c))
  {
    if IsAstral(c) {
      assert c as int < 0x110000;
    }
  }

  lemma {:induction false} QuoteIsAscii(s: string)
    ensures IsAscii(Escape(s)) && IsAscii(Quote(s))
  {
    if s != "" {
      EscapeCharIsAscii(s[0]);
      QuoteIsAscii(s[1..]);
    }
  }

  /** json.dumps writes ASCII only, so the names pass whatever their characters. */
  lemma {:induction false} NamesAreAscii(names: NodeNames.Names)
    ensures IsAscii(NodeNames.DumpMembers(names)) && IsAscii(NodeNames.DumpNames(names))
  {
    if names != [] {
      QuoteIsAscii(names[0].0);
      QuoteIsAscii(names[0].1);
      assert IsAscii(NodeNames.DumpMember(names[0]));
      NamesAreAscii(names[1..]);
    }
  }

  lemma IntervalIsAscii(n: int)
    ensures IsAscii(Decimal.PrintInt(n))
  {
    Decimal.PrintDigits(if n < 0 then -n else n);
  }

  // ---------------------------------------------------------------- the environment

  predicate IsName(k: string) {
    IsAscii(k) && '=' !in k
  }

  predicate Named(variables: Pairs) {
    forall i :: 0 <= i < |variables| ==> IsName(variables[i].0)
  }

  predicate Distinct(variables: Pairs) {
    forall i, j :: 0 <= i < j < |variables| ==> variables[i].0 != variables[j].0
  }

  predicate ValuesPass(variables: Pairs) {
    forall i :: 0 <= i < |variables| ==> AllPass(variables[i].1)
  }

  /** An entry is split at its first `=`, so a value keeps its own. */
  lemma EntrySplits(variable: (string, string))
    requires IsName(variable.0)
    ensures AllPass(Entry(variable)) <==> AllPass(variable.1)
    ensures var e := Entry(variable); var i := Naming.IndexOf(e, '=');
      i < |e| && e[..i] == variable.0 && e[i + 1..] == variable.1
  {
    assert "=" == ['='];
    Naming.IndexOfIs(variable.0, '=', variable.1);
    ConcatPasses("=", variable.1);
    ConcatPasses(variable.0, "=" + variable.1);
  }

  lemma {:induction false} StartReads(variables: Pairs)
    requires Named(variables) && ValuesPass(variables)
    ensures Start(Entries(variables)) == Some(Dict(variables))
  {
    if variables != [] {
      var n := |variables| - 1;
      EntrySplits(variables[n]);
      StartReads(variables[..n]);
      assert Entries(variables)[..n] == Entries(variables[..n]);
    }
  }

  lemma {:induction false} StartFails(entries: seq<Value>, i: nat)
    requires i < |entries| && entries[i].StrValue? && HasNul(entries[i].s)
    ensures Start(entries) == None
  {
    if i < |entries| - 1 {
      StartFails(entries[..|entries| - 1], i);
    }
  }

  /** The connector starts with exactly these variables if every value passes; one value
      that does not pass keeps it from starting. */
  lemma LaunchIs(variables: Pairs)
    requires Named(variables)
    ensures Launch(Print(ListValue(Entries(variables)))) ==
      if ValuesPass(variables) then Some(Dict(variables)) else None
  {
    var entries := Entries(variables);
    var text := Print(ListValue(entries));
    ValueReads(ListValue(entries), "");
    assert text + "" == text;
    SomeAstralAt(entries);
    if ValuesPass(variables) {
      forall i | 0 <= i < |entries| ensures !Astral(entries[i]) {
        EntrySplits(variables[i]);
      }
      StartReads(variables);
    } else {
      var i :| 0 <= i < |variables| && !AllPass(variables[i].1);
      EntrySplits(variables[i]);
      if !HasAstral(Entry(variables[i])) {
        StartFails(entries, i);
      } else {
        assert Astral(entries[i]);
      }
    }
  }

  lemma {:induction false} DictHas(variables: Pairs, i: nat)
    requires Distinct(variables) && i < |variables|
    ensures variables[i].0 in Dict(variables)
    ensures Dict(variables)[variables[i].0] == variables[i].1
  {
    if i < |variables| - 1 {
      DictHas(variables[..|variables| - 1], i);
    }
  }

  lemma {:induction false} DictLacks(variables: Pairs, name: string)
    requires forall i :: 0 <= i < |variables| ==> variables[i].0 != name
    ensures name !in Dict(variables)
  {
    if variables != [] {
      DictLacks(variables[..|variables| - 1], name);
    }
  }

  lemma TextNames()
    ensures IsName("PIPELINE_ID") && IsName("OPCUA_ENDPOINT") && IsName("OPCUA_NODE_IDS")
  {
  }

  lemma OtherNames()
    ensures IsName("OPCUA_NODE_NAMES_JSON") && IsName("OPCUA_PUBLISHING_INTERVAL_MS")
    ensures IsName("OPCUA_CONNECT_TIMEOUT_S")
  {
  }

  lemma VariablesAreDistinct(o: Options)
    ensures Named(Variables(o)) && Distinct(Variables(o))
  {
    TextNames();
    OtherNames();
    assert "OPCUA_ENDPOINT"[6] != "OPCUA_NODE_IDS"[6];
  }

  lemma AsciiPasses(s: string)
    requires IsAscii(s)
    ensures AllPass(s)
  {
  }

  // ---------------------------------------------------------------- round trip

  /** What a caller can check beforehand. */
  predicate Faithful(o: Options) {
    && o.endpoint != "" && o.nodeIds != []
    && AllPass(o.pipelineId) && AllPass(o.endpoint)
    && (forall i :: 0 <= i < |o.nodeIds| ==> AllPass(o.nodeIds[i]))
    && NodeIds.AllPlain(o.nodeIds)
  }

  function Expected(o: Options): Config {
    Config(o.pipelineId, o.endpoint, o.nodeIds, Dict(o.nodeNames), o.intervalMs,
      match o.connectTimeout
      case Some(timeout) => timeout
      case None => "4")
  }

  lemma VariablesPass(o: Options)
    ensures ValuesPass(Variables(o)) <==>
      AllPass(o.pipelineId) && AllPass(o.endpoint) && forall i :: 0 <= i < |o.nodeIds| ==> AllPass(o.nodeIds[i])
  {
    JoinPasses(o.nodeIds);
    NamesAreAscii(o.nodeNames);
    AsciiPasses(NodeNames.DumpNames(o.nodeNames));
    IntervalIsAscii(o.intervalMs);
    AsciiPasses(Decimal.PrintInt(o.intervalMs));
    var vs := Variables(o);
    if o.connectTimeout.Some? {
      AsciiPasses(o.connectTimeout.value);
    }
    assert vs[0].1 == o.pipelineId && vs[1].1 == o.endpoint && vs[2].1 == NodeIds.Join(o.nodeIds);
  }

  /** What the connector finds under each name. */
  lemma VariablesFound(o: Options)
    ensures var env := Dict(Variables(o));
      && GetEnv(env, "PIPELINE_ID", "unknown") == o.pipelineId
      && GetEnv(env, "OPCUA_ENDPOINT", "") == o.endpoint
      && GetEnv(env, "OPCUA_NODE_IDS", "") == NodeIds.Join(o.nodeIds)
      && GetEnv(env, "OPCUA_NODE_NAMES_JSON", "") == NodeNames.DumpNames(o.nodeNames)
      && GetEnv(env, "OPCUA_PUBLISHING_INTERVAL_MS", "500") == Decimal.PrintInt(o.intervalMs)
      && GetEnv(env, "OPCUA_CONNECT_TIMEOUT_S", "4") == Expected(o).connectTimeout
  {
    var vs := Variables(o);
    VariablesAreDistinct(o);
    DictHas(vs, 0);
    DictHas(vs, 1);
    DictHas(vs, 2);
    DictHas(vs, 3);
    DictHas(vs, 4);
    if o.connectTimeout.Some? {
      DictHas(vs, 5);
    } else {
      DictLacks(vs, "OPCUA_CONNECT_TIMEOUT_S");
    }
  }

  /** The connector's view of the variables, before any check of the options. */
  lemma ConfigureReads(o: Options)
    ensures Configure(Dict(Variables(o))) ==
      if o.endpoint == "" then EndpointMissing
      else if NodeIds.Read(NodeIds.Join(o.nodeIds)) == [] then NodeIdsMissing
      else Configured(Expected(o).(nodeIds := NodeIds.Read(NodeIds.Join(o.nodeIds))))
  {
    VariablesFound(o);
    NodeNames.NamesRoundTrip(o.nodeNames);
    Decimal.ReadIntPrint(o.intervalMs);
  }

  /** What the connector does without the variables that the printer may leave out, or that
      an empty text stands for. */
  lemma ConfigureDefaults(endpoint: string, ids: string)
    ensures
      Configure(map["OPCUA_ENDPOINT" := endpoint, "OPCUA_NODE_IDS" := ids]) ==
        if endpoint == "" then EndpointMissing
        else if NodeIds.Read(ids) == [] then NodeIdsMissing
        else Configured(Config("unknown", endpoint, NodeIds.Read(ids), map[], 500, "4"))
  {
    hide NodeNames.LoadNames, Decimal.ReadInt, NodeIds.Read;
    DefaultsRead();
  }

  /** Which environments the connector accepts, exactly. */
  lemma ConfiguresExactly(env: Environ)
    ensures Configure(env).Configured? <==>
      && "OPCUA_ENDPOINT" in env && env["OPCUA_ENDPOINT"] != ""
      && "OPCUA_NODE_IDS" in env && NodeIds.Read(env["OPCUA_NODE_IDS"]) != []
      && ("OPCUA_NODE_NAMES_JSON" in env && env["OPCUA_NODE_NAMES_JSON"] != "" ==>
            NodeNames.LoadNames(env["OPCUA_NODE_NAMES_JSON"]).Some?)
      && ("OPCUA_PUBLISHING_INTERVAL_MS" in env ==> Decimal.ReadInt(env["OPCUA_PUBLISHING_INTERVAL_MS"]).Some?)
  {
    hide NodeNames.LoadNames, Decimal.ReadInt, NodeIds.Read;
    NoIds();
    DefaultsRead();
  }

  lemma NoIds()
    ensures NodeIds.Read("") == []
  {
    NodeIds.ReadJoin([]);
  }

  lemma DefaultsRead()
    ensures NodeNames.LoadNames("{}") == Some([])
    ensures Decimal.ReadInt("500") == Some(500)
  {
    NodeNames.NamesRoundTrip([]);
    Decimal.ReadIntPrint(500);
    assert Decimal.Print(5) == "5" && Decimal.Print(50) == "50" && Decimal.Print(500) == "500";
  }

  /** The connector ends up with the pipeline's own options exactly when they are faithful:
      every other option list is refused, keeps the connector from starting, or reads back
      as different node ids.  Node names need no condition. */
  lemma ConfigRoundTrip(o: Options)
    ensures ReadBack(Environment(o)) == Configured(Expected(o)) <==> Faithful(o)
  {
    VariablesAreDistinct(o);
    LaunchIs(Variables(o));
    VariablesPass(o);
    ConfigureReads(o);
    NodeIds.ReadJoin(o.nodeIds);
  }
}

/** Telegraf message to ClickHouse row, against the pipeline's declared schema.

    Numbers are real numbers: rounding is not part of the model, the overflow of `float`
    on huge integers is.  `parse` stands for Python's `float` on a string. */
module Rows {
  import opened Wrappers
  import opened Models

  // ---------------------------------------------------------------- values

  datatype Float = Finite(r: real) | NaN | Infinite(negative: bool)

  /** What json.loads returns. */
  datatype Json =
    | Null
    | Bool(b: bool)
    | Int(n: int)
    | Num(f: Float)
    | Str(s: string)
    | Arr(items: seq<Json>)
    | Obj(fields: map<string, Json>)

  /** One cell: a time in seconds since the epoch, a float, `str()` of a JSON value, a tag
      or field as it came, or nothing. */
  datatype Cell = Empty | Time(seconds: real) | Number(f: Float) | Text(of: Json) | Raw(v: Json)

  type Row = map<string, Cell>

  /** to_row's three outcomes: a row, a RecordError, or an OverflowError that is not turned
      into a RecordError. */
  datatype Mapping = Mapped(row: Row) | Rejected | Overflowed

  // ---------------------------------------------------------------- timestamps

  /** Integers of this magnitude and above make `float` raise OverflowError:
      2 to the 1024 less half a unit in the last place, or 2^54 - 1 times 2^970. */
  const FLOAT_OVERFLOW :=
    0x3FFFFFFFFFFFFF
    * 0x4000000000000000000000000000000000000000000000000 * 0x4000000000000000000000000000000000000000000000000
    * 0x4000000000000000000000000000000000000000000000000 * 0x4000000000000000000000000000000000000000000000000
    * 0x4000000000000000000000000000000000000000000000000

  function TwoTo(n: nat): nat {
    if n == 0 then 1 else 2 * TwoTo(n - 1)
  }

  lemma {:induction false} TwoToSum(m: nat, n: nat)
    ensures TwoTo(m + n) == TwoTo(m) * TwoTo(n)
  {
    if m > 0 {
      TwoToSum(m - 1, n);
    }
  }

  lemma TwoToTwice(n: nat, value: int)
    requires TwoTo(n) == value
    ensures TwoTo(n + n) == value * value
  {
    TwoToSum(n, n);
  }

  lemma SmallPowers(k: nat)
    requires k == 6
    ensures TwoTo(k) == 0x40 && TwoTo(9 * k) == 0x40000000000000
    ensures TwoTo(32 * k + 2) == 0x4000000000000000000000000000000000000000000000000
  {
    assert TwoTo(k) == 64;
    TwoToTwice(k, 0x40);
    TwoToTwice(2 * k, 0x1000);
    TwoToTwice(4 * k, 0x1000000);
    TwoToTwice(8 * k, 0x1000000000000);
    TwoToSum(8 * k, k);
    TwoToTwice(16 * k, 0x1000000000000000000000000);
    assert TwoTo(32 * k + 2) == 4 * TwoTo(32 * k);
  }

  /** The first integer that rounds to the power of two beyond the largest float: 2 to the
      n + 54 less 2 to the n, for n = 970. */
  lemma FloatOverflowIs(n: nat)
    requires n == 970
    ensures FLOAT_OVERFLOW == TwoTo(n + 54) - TwoTo(n)
  {
    var (k, a) := (6, 0x4000000000000000000000000000000000000000000000000);
    SmallPowers(k);
    TwoToTwice(32 * k + 2, a);
    TwoToTwice(64 * k + 4, a * a);
    TwoToSum(32 * k + 2, 128 * k + 8);
    assert TwoTo(n) == a * (a * a * (a * a));
    TwoToSum(9 * k, n);
  }

  /** 1 January 2001, and the bounds of a Python datetime: years 1 to 9999. */
  const EARLIEST_PLAUSIBLE: real := 978307200.0
  const FUTURE_TOLERANCE: real := 86400.0
  const MIN_DATETIME: real := -62135596800.0
  const END_OF_DATETIME: real := 253402300800.0

  function IntToFloat(n: int): Option<Float> {
    if -FLOAT_OVERFLOW < n < FLOAT_OVERFLOW then Some(Finite(n as real)) else None
  }

  /** `float(raw)`, or None where it raises. */
  function ToFloat(raw: Json, parse: string -> Option<Float>): Option<Float> {
    match raw
    case Bool(b) => Some(Finite(if b then 1.0 else 0.0))
    case Int(n) => IntToFloat(n)
    case Num(f) => Some(f)
    case Str(s) => parse(s)
    case _ => None
  }

  /** `datetime.fromtimestamp(float(raw) / 1000)` in seconds, or None where it raises. */
  function Instant(raw: Json, parse: string -> Option<Float>): Option<real> {
    match ToFloat(raw, parse)
    case Some(Finite(r)) =>
      if MIN_DATETIME <= r / 1000.0 < END_OF_DATETIME then Some(r / 1000.0) else None
    case _ => None
  }

  function Lookup(m: map<string, Json>, key: string): Json {
    if key in m then m[key] else Null
  }

  /** The message's event time in seconds, or None for a RecordError. */
  function EventTime(message: map<string, Json>, parse: string -> Option<Float>, now: real): Option<real> {
    match Instant(Lookup(message, "timestamp"), parse)
    case Some(t) => if EARLIEST_PLAUSIBLE <= t && t - now <= FUTURE_TOLERANCE then Some(t) else None
    case None => None
  }

  // ---------------------------------------------------------------- the row

  /** `x or {}`: a falsy value counts as the empty object. */
  function OrEmpty(v: Json): Json {
    match v
    case Null => Obj(map[])
    case Bool(b) => if b then v else Obj(map[])
    case Int(n) => if n == 0 then Obj(map[]) else v
    case Num(f) => if f == Finite(0.0) then Obj(map[]) else v
    case Str(s) => if s == "" then Obj(map[]) else v
    case Arr(items) => if items == [] then Obj(map[]) else v
    case Obj(_) => v
  }

  /** Numeric readings to `value`, everything else to `value_text`; None is the
      OverflowError. */
  function SplitValue(v: Json): Option<(Cell, Cell)> {
    match v
    case Null => Some((Empty, Empty))
    case Int(n) =>
      (match IntToFloat(n)
       case Some(f) => Some((Number(f), Empty))
       case None => None)
    case Num(f) => Some((Number(f), Empty))
    case _ => Some((Empty, Text(v)))
  }

  function RawCells(m: map<string, Json>): map<string, Cell> {
    map k | k in m :: Raw(m[k])
  }

  /** The merged dict that columns are looked up in. */
  function Source(tags: map<string, Json>, fields: map<string, Json>, pipelineId: string,
                  eventTime: real, split: (Cell, Cell), ingestedAt: real): map<string, Cell>
  {
    (RawCells(tags) + RawCells(fields))
      ["event_time" := Time(eventTime)]
      ["value" := split.0]
      ["value_text" := split.1]
      ["ingested_at" := Time(ingestedAt)]
      ["pipeline_id" := if "pipeline_id" in tags then Raw(tags["pipeline_id"]) else Raw(Str(pipelineId))]
  }

  predicate IsNullable(chType: string) {
    "Nullable" <= chType
  }

  function Default(chType: string): Cell {
    if chType == "Int64" then Raw(Int(0)) else Raw(Str(""))
  }

  function CellFor(column: Column, source: map<string, Cell>): Cell {
    if column.name in source then source[column.name]
    else if IsNullable(column.chType) then Empty
    else Default(column.chType)
  }

  /** The declared columns and nothing else. */
  function RowOf(schema: seq<Column>, source: map<string, Cell>): Row {
    if schema == [] then map[]
    else RowOf(schema[..|schema| - 1], source)[schema[|schema| - 1].name := CellFor(schema[|schema| - 1], source)]
  }

  /** to_row; `now` is the clock when the event time is checked, `ingestedAt` the slightly
      later reading that goes into the row. */
  function ToRow(message: Json, config: PipelineConfig, parse: string -> Option<Float>,
                 now: real, ingestedAt: real): Mapping
  {
    if !message.Obj? then Rejected else
    var tags, fields := OrEmpty(Lookup(message.fields, "tags")), OrEmpty(Lookup(message.fields, "fields"));
    if !tags.Obj? || !fields.Obj? then Rejected else
    RowFrom(EventTime(message.fields, parse, now), tags.fields, fields.fields, config, ingestedAt)
  }

  function RowFrom(eventTime: Option<real>, tags: map<string, Json>, fields: map<string, Json>,
                   config: PipelineConfig, ingestedAt: real): Mapping
  {
    match eventTime
    case None => Rejected
    case Some(t) =>
      match SplitValue(Lookup(fields, "value"))
      case None => Overflowed
      case Some(split) => Mapped(RowOf(config.schema, Source(tags, fields, config.pipelineId, t, split, ingestedAt)))
  }

  /** The loop that fills the row, column by column. */
  method FillRow(schema: seq<Column>, source: map<string, Cell>) returns (row: Row)
    ensures row == RowOf(schema, source)
  {
    row := map[];
    for i := 0 to |schema|
      invariant row == RowOf(schema[..i], source)
    {
      var column := schema[i];
      assert schema[..i + 1][..i] == schema[..i];
      if column.name in source {
        row := row[column.name := source[column.name]];
      } else if IsNullable(column.chType) {
        row := row[column.name := Empty];
      } else {
        row := row[column.name := Default(column.chType)];
      }
    }
    assert schema[..|schema|] == schema;
  }

  // ---------------------------------------------------------------- properties of rows

  lemma {:induction false} RowOfAt(schema: seq<Column>, source: map<string, Cell>, i: nat)
    requires DistinctColumns(schema) && i < |schema|
    ensures schema[i].name in RowOf(schema, source)
    ensures RowOf(schema, source)[schema[i].name] == CellFor(schema[i], source)
  {
    if i < |schema| - 1 {
      RowOfAt(schema[..|schema| - 1], source, i);
    }
  }

  lemma {:induction false} RowOfKeys(schema: seq<Column>, source: map<string, Cell>)
    ensures RowOf(schema, source).Keys == ColumnNames(schema)
  {
    if schema != [] {
      var last := |schema| - 1;
      RowOfKeys(schema[..last], source);
      assert schema == schema[..last] + [schema[last]];
      assert ColumnNames(schema) == ColumnNames(schema[..last]) + {schema[last].name};
    }
  }

  lemma RowOfLookup(schema: seq<Column>, source: map<string, Cell>)
    requires DistinctColumns(schema)
    ensures RowOf(schema, source).Keys == ColumnNames(schema)
    ensures forall c :: c in schema ==>
      c.name in RowOf(schema, source) && RowOf(schema, source)[c.name] == CellFor(c, source)
  {
    RowOfKeys(schema, source);
    forall c | c in schema
      ensures c.name in RowOf(schema, source) && RowOf(schema, source)[c.name] == CellFor(c, source)
    {
      var i :| 0 <= i < |schema| && schema[i] == c;
      RowOfAt(schema, source, i);
    }
  }

  // ---------------------------------------------------------------- what a message says

  /** Python takes this value for false. */
  predicate IsFalsy(v: Json) {
    || v == Null || v == Bool(false) || v == Int(0) || v == Num(Finite(0.0))
    || v == Str("") || v == Arr([]) || v == Obj(map[])
  }

  /** The key is missing or falsy, or holds an object. */
  predicate ObjectOrNothing(message: map<string, Json>, key: string) {
    key !in message || IsFalsy(message[key]) || message[key].Obj?
  }

  /** The object under the key; none counts as an empty one. */
  function ObjectAt(message: map<string, Json>, key: string): map<string, Json> {
    if key in message && message[key].Obj? then message[key].fields else map[]
  }

  /** The value is this number of milliseconds: a number, or a string that `float` reads. */
  predicate IsMillis(v: Json, parse: string -> Option<Float>, ms: real) {
    match v
    case Int(n) => ms == n as real
    case Num(x) => x == Finite(ms)
    case Str(text) => parse(text) == Some(Finite(ms))
    case _ => false
  }

  /** Not before 2001, in the year 9999 at the latest, and not more than a day ahead. */
  predicate InWindow(ms: real, now: real) {
    978307200000.0 <= ms < 253402300800000.0 && ms <= (now + 86400.0) * 1000.0
  }

  ghost predicate PlausibleTime(message: map<string, Json>, parse: string -> Option<Float>, now: real) {
    "timestamp" in message && exists ms: real :: IsMillis(message["timestamp"], parse, ms) && InWindow(ms, now)
  }

  /** The reading is an integer whose magnitude `float` cannot hold. */
  predicate HugeReading(fields: map<string, Json>) {
    "value" in fields && fields["value"].Int? && !(-FLOAT_OVERFLOW < fields["value"].n < FLOAT_OVERFLOW)
  }

  /** All that to_row asks of a message. */
  ghost predicate GoodMessage(message: Json, parse: string -> Option<Float>, now: real) {
    && message.Obj?
    && ObjectOrNothing(message.fields, "tags") && ObjectOrNothing(message.fields, "fields")
    && PlausibleTime(message.fields, parse, now)
  }

  lemma FalsyIsEmpty(message: map<string, Json>, key: string)
    ensures OrEmpty(Lookup(message, key)).Obj? <==> ObjectOrNothing(message, key)
    ensures ObjectOrNothing(message, key) ==> OrEmpty(Lookup(message, key)).fields == ObjectAt(message, key)
  {
  }

  /** The event time is the instant that the milliseconds say. */
  lemma EventTimeExactly(message: map<string, Json>, parse: string -> Option<Float>, now: real)
    ensures EventTime(message, parse, now).Some? <==> PlausibleTime(message, parse, now)
    ensures EventTime(message, parse, now).Some? ==>
      IsMillis(message["timestamp"], parse, EventTime(message, parse, now).value * 1000.0)
  {
    var raw := Lookup(message, "timestamp");
    match ToFloat(raw, parse)
    case Some(Finite(r)) =>
      assert r / 1000.0 * 1000.0 == r;
      if raw.Bool? {
        assert EventTime(message, parse, now).None?;
      } else {
        assert IsMillis(raw, parse, r);
      }
    case _ =>
  }

  /** Which messages are turned into a row, exactly: the good ones, whatever their
      reading is, but for one: an integer beyond the float range. */
  lemma AcceptedExactly(message: Json, config: PipelineConfig, parse: string -> Option<Float>, now: real,
                        ingestedAt: real)
    ensures ToRow(message, config, parse, now, ingestedAt).Mapped? <==>
      GoodMessage(message, parse, now) && !HugeReading(ObjectAt(message.fields, "fields"))
  {
    OutcomeIs(message, config, parse, now, ingestedAt);
  }

  /** When to_row raises something other than RecordError, exactly: a good message
      with such a reading. */
  lemma OverflowsExactly(message: Json, config: PipelineConfig, parse: string -> Option<Float>, now: real,
                         ingestedAt: real)
    ensures ToRow(message, config, parse, now, ingestedAt).Overflowed? <==>
      GoodMessage(message, parse, now) && HugeReading(ObjectAt(message.fields, "fields"))
  {
    OutcomeIs(message, config, parse, now, ingestedAt);
  }

  lemma OutcomeIs(message: Json, config: PipelineConfig, parse: string -> Option<Float>, now: real, ingestedAt: real)
    ensures
      var mapping := ToRow(message, config, parse, now, ingestedAt);
      if !GoodMessage(message, parse, now) then mapping == Rejected
      else if HugeReading(ObjectAt(message.fields, "fields")) then mapping == Overflowed
      else mapping.Mapped?
  {
    hide EventTime;
    if message.Obj? {
      FalsyIsEmpty(message.fields, "tags");
      FalsyIsEmpty(message.fields, "fields");
      EventTimeExactly(message.fields, parse, now);
    }
  }

  /** What a column holds for a message with these tags and fields: the five computed
      columns first, then a field before a tag of that name, then the default. */
  predicate CellIs(cell: Cell, c: Column, tags: map<string, Json>, fields: map<string, Json>, pipelineId: string,
                   eventTime: real, ingestedAt: real)
  {
    if c.name == "event_time" then cell == Time(eventTime)
    else if c.name == "ingested_at" then cell == Time(ingestedAt)
    else if c.name == "pipeline_id" then cell == Raw(if c.name in tags then tags[c.name] else Str(pipelineId))
    else if c.name == "value" then
      if "value" !in fields then cell == Empty else
      match fields["value"]
      case Int(n) => cell == Number(Finite(n as real))
      case Num(f) => cell == Number(f)
      case _ => cell == Empty
    else if c.name == "value_text" then
      if "value" !in fields then cell == Empty else
      match fields["value"]
      case Null => cell == Empty
      case Int(_) => cell == Empty
      case Num(_) => cell == Empty
      case v => cell == Text(v)
    else if c.name in fields then cell == Raw(fields[c.name])
    else if c.name in tags then cell == Raw(tags[c.name])
    else if |c.chType| >= 8 && c.chType[..8] == "Nullable" then cell == Empty
    else if c.chType == "Int64" then cell == Raw(Int(0))
    else cell == Raw(Str(""))
  }

  /** A row has exactly the declared columns, whatever the message carries, and each holds
      what it should. */
  lemma ExactlyDeclaredColumns(message: Json, config: PipelineConfig, parse: string -> Option<Float>, now: real,
                               ingestedAt: real)
      returns (t: real)
    requires ToRow(message, config, parse, now, ingestedAt).Mapped?
    ensures message.Obj? && "timestamp" in message.fields
    ensures IsMillis(message.fields["timestamp"], parse, t * 1000.0)
    ensures
      var row := ToRow(message, config, parse, now, ingestedAt).row;
      var tags, fields := ObjectAt(message.fields, "tags"), ObjectAt(message.fields, "fields");
      && row.Keys == ColumnNames(config.schema)
      && forall c :: c in config.schema ==>
           c.name in row && CellIs(row[c.name], c, tags, fields, config.pipelineId, t, ingestedAt)
  {
    hide CellIs, EventTime, RowOf, CellFor, Source;
    var tags, fields := ObjectAt(message.fields, "tags"), ObjectAt(message.fields, "fields");
    FalsyIsEmpty(message.fields, "tags");
    FalsyIsEmpty(message.fields, "fields");
    EventTimeExactly(message.fields, parse, now);
    t := EventTime(message.fields, parse, now).value;
    var split := SplitValue(Lookup(fields, "value")).value;
    var source := Source(tags, fields, config.pipelineId, t, split, ingestedAt);
    RowOfLookup(config.schema, source);
    forall c | c in config.schema
      ensures CellIs(CellFor(c, source), c, tags, fields, config.pipelineId, t, ingestedAt)
    {
      SourceCell(tags, fields, config.pipelineId, t, split, ingestedAt, c);
    }
  }

  lemma SourceCell(tags: map<string, Json>, fields: map<string, Json>, pipelineId: string,
                   eventTime: real, split: (Cell, Cell), ingestedAt: real, c: Column)
    requires SplitValue(Lookup(fields, "value")) == Some(split)
    ensures CellIs(CellFor(c, Source(tags, fields, pipelineId, eventTime, split, ingestedAt)),
                   c, tags, fields, pipelineId, eventTime, ingestedAt)
  {
  }

  lemma {:induction false} RowOfAgrees(schema: seq<Column>, source: map<string, Cell>, other: map<string, Cell>)
    requires forall c :: c in schema ==> CellFor(c, source) == CellFor(c, other)
    ensures RowOf(schema, source) == RowOf(schema, other)
  {
    if schema != [] {
      RowOfAgrees(schema[..|schema| - 1], source, other);
    }
  }

  /** The keys of a message that can matter: those the schema declares, and the two that
      to_row reads by name. */
  function Relevant(m: map<string, Json>, config: PipelineConfig): map<string, Json> {
    map k | k in m && (k in ColumnNames(config.schema) || k == "value" || k == "pipeline_id") :: m[k]
  }

  lemma RelevantCellsAgree(tags: map<string, Json>, fields: map<string, Json>, config: PipelineConfig,
                           t: real, split: (Cell, Cell), ingestedAt: real, c: Column)
    requires c in config.schema
    ensures CellFor(c, Source(tags, fields, config.pipelineId, t, split, ingestedAt))
         == CellFor(c, Source(Relevant(tags, config), Relevant(fields, config), config.pipelineId, t, split,
                              ingestedAt))
  {
    assert c.name in ColumnNames(config.schema);
    var a := RawCells(tags) + RawCells(fields);
    var b := RawCells(Relevant(tags, config)) + RawCells(Relevant(fields, config));
    assert c.name in a <==> c.name in b;
    assert c.name in a ==> a[c.name] == b[c.name];
  }

  lemma RowFromRelevant(eventTime: Option<real>, tags: map<string, Json>, fields: map<string, Json>,
                        config: PipelineConfig, ingestedAt: real)
    ensures RowFrom(eventTime, tags, fields, config, ingestedAt)
         == RowFrom(eventTime, Relevant(tags, config), Relevant(fields, config), config, ingestedAt)
  {
    assert Lookup(fields, "value") == Lookup(Relevant(fields, config), "value");
    var split := SplitValue(Lookup(fields, "value"));
    if eventTime.Some? && split.Some? {
      var source := Source(tags, fields, config.pipelineId, eventTime.value, split.value, ingestedAt);
      var source' := Source(Relevant(tags, config), Relevant(fields, config), config.pipelineId,
                            eventTime.value, split.value, ingestedAt);
      forall c | c in config.schema
        ensures CellFor(c, source) == CellFor(c, source')
      {
        RelevantCellsAgree(tags, fields, config, eventTime.value, split.value, ingestedAt, c);
      }
      RowOfAgrees(config.schema, source, source');
    }
  }

  lemma ToRowIs(message: map<string, Json>, tags: map<string, Json>, fields: map<string, Json>,
                config: PipelineConfig, parse: string -> Option<Float>, now: real, ingestedAt: real)
    requires Lookup(message, "tags") == Obj(tags) && Lookup(message, "fields") == Obj(fields)
    ensures ToRow(Obj(message), config, parse, now, ingestedAt)
         == RowFrom(EventTime(message, parse, now), tags, fields, config, ingestedAt)
  {
  }

  /** Undeclared tags and fields change nothing: a message without them has the same
      outcome. */
  lemma UndeclaredKeysAreIgnored(message: map<string, Json>, pruned: map<string, Json>,
                                 tags: map<string, Json>, fields: map<string, Json>,
                                 config: PipelineConfig, parse: string -> Option<Float>, now: real, ingestedAt: real)
    requires Lookup(message, "timestamp") == Lookup(pruned, "timestamp")
    requires Lookup(message, "tags") == Obj(tags) && Lookup(pruned, "tags") == Obj(Relevant(tags, config))
    requires Lookup(message, "fields") == Obj(fields) && Lookup(pruned, "fields") == Obj(Relevant(fields, config))
    ensures ToRow(Obj(message), config, parse, now, ingestedAt) == ToRow(Obj(pruned), config, parse, now, ingestedAt)
  {
    ToRowIs(message, tags, fields, config, parse, now, ingestedAt);
    ToRowIs(pruned, Relevant(tags, config), Relevant(fields, config), config, parse, now, ingestedAt);
    RowFromRelevant(EventTime(message, parse, now), tags, fields, config, ingestedAt);
  }

  // ---------------------------------------------------------------- the second call

  /** Two rows that differ in their ingestion time only. */
  ghost predicate SameButIngestion(a: Row, b: Row) {
    a.Keys == b.Keys && forall k :: k in a && k != "ingested_at" ==> a[k] == b[k]
  }

  lemma IngestionOnly(tags: map<string, Json>, fields: map<string, Json>, pipelineId: string,
                      t: real, split: (Cell, Cell), ingestedAt: real, ingestedLater: real, c: Column)
    requires c.name != "ingested_at"
    ensures CellFor(c, Source(tags, fields, pipelineId, t, split, ingestedAt))
         == CellFor(c, Source(tags, fields, pipelineId, t, split, ingestedLater))
  {
  }

  /** The isolation path maps a record again, later: the outcome is the same up to the
      ingestion time, because time only moves towards the future bound. */
  lemma AcceptedAgainLater(message: Json, config: PipelineConfig, parse: string -> Option<Float>,
                           now: real, ingestedAt: real, later: real, ingestedLater: real)
    requires now <= later
    requires ToRow(message, config, parse, now, ingestedAt).Mapped?
    ensures ToRow(message, config, parse, later, ingestedLater).Mapped?
    ensures SameButIngestion(ToRow(message, config, parse, now, ingestedAt).row,
                             ToRow(message, config, parse, later, ingestedLater).row)
  {
    var tags, fields := OrEmpty(Lookup(message.fields, "tags")), OrEmpty(Lookup(message.fields, "fields"));
    var t := EventTime(message.fields, parse, now).value;
    assert EventTime(message.fields, parse, later) == Some(t);
    var split := SplitValue(Lookup(fields.fields, "value")).value;
    var source := Source(tags.fields, fields.fields, config.pipelineId, t, split, ingestedAt);
    var source' := Source(tags.fields, fields.fields, config.pipelineId, t, split, ingestedLater);
    RowOfLookup(config.schema, source);
    RowOfLookup(config.schema, source');
    forall k | k in RowOf(config.schema, source) && k != "ingested_at"
      ensures RowOf(config.schema, source)[k] == RowOf(config.schema, source')[k]
    {
      var c :| c in config.schema && c.name == k;
      IngestionOnly(tags.fields, fields.fields, config.pipelineId, t, split, ingestedAt, ingestedLater, c);
    }
  }

  // ---------------------------------------------------------------- units

  /** A clock reading that a datetime can hold. */
  predicate Representable(now: real) {
    MIN_DATETIME <= now < END_OF_DATETIME
  }

  /** An instant that would be accepted if it were sent in the right unit. */
  predicate Plausible(instant: real, now: real) {
    EARLIEST_PLAUSIBLE <= instant <= now + FUTURE_TOLERANCE
  }

  /** For every clock a datetime can hold, no plausible instant sent in seconds, in
      microseconds or in nanoseconds is accepted as milliseconds, while the same instant in
      milliseconds is accepted exactly if a datetime can hold it. */
  lemma WrongUnitsAreRejected(instant: real, now: real, message: map<string, Json>, parse: string -> Option<Float>)
    requires Representable(now) && Plausible(instant, now)
    ensures EventTime(message["timestamp" := Num(Finite(instant))], parse, now) == None
    ensures EventTime(message["timestamp" := Num(Finite(instant * 1000000.0))], parse, now) == None
    ensures EventTime(message["timestamp" := Num(Finite(instant * 1000000000.0))], parse, now) == None
    ensures EventTime(message["timestamp" := Num(Finite(instant * 1000.0))], parse, now)
         == if instant < END_OF_DATETIME then Some(instant) else None
  {
    assert instant / 1000.0 < EARLIEST_PLAUSIBLE;
    assert instant * 1000000.0 / 1000.0 == instant * 1000.0 >= END_OF_DATETIME;
    assert instant * 1000000000.0 / 1000.0 == instant * 1000000.0 >= END_OF_DATETIME;
    assert instant * 1000.0 / 1000.0 == instant;
  }

  /** The same for integers, which is what Telegraf sends, whatever instant they stand for
      in their unit. */
  lemma WrongIntegerUnitsAreRejected(n: int, now: real, message: map<string, Json>, parse: string -> Option<Float>)
    requires Representable(now)
    ensures Plausible(n as real, now) || Plausible(n as real / 1000000.0, now)
            || Plausible(n as real / 1000000000.0, now) ==>
      EventTime(message["timestamp" := Int(n)], parse, now) == None
    ensures Plausible(n as real / 1000.0, now) ==>
      EventTime(message["timestamp" := Int(n)], parse, now) ==
        if n as real / 1000.0 < END_OF_DATETIME then Some(n as real / 1000.0) else None
  {
    if Plausible(n as real / 1000.0, now) {
      assert n as real / 1000.0 <= END_OF_DATETIME + FUTURE_TOLERANCE;
      assert -FLOAT_OVERFLOW < n < FLOAT_OVERFLOW;
    }
    IntegerTimestampAccepted(n, now, message, parse);
  }

  /** Which integer timestamps are accepted, exactly. */
  lemma IntegerTimestampAccepted(n: int, now: real, message: map<string, Json>, parse: string -> Option<Float>)
    requires Representable(now)
    ensures EventTime(message["timestamp" := Int(n)], parse, now).Some?
      <==> 978307200000 <= n && n as real < END_OF_DATETIME * 1000.0 && n as real <= (now + FUTURE_TOLERANCE) * 1000.0
  {
    if -FLOAT_OVERFLOW < n < FLOAT_OVERFLOW {
      assert Instant(Int(n), parse) ==
        if MIN_DATETIME <= n as real / 1000.0 < END_OF_DATETIME then Some(n as real / 1000.0) else None;
    }
  }
}

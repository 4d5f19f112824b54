/** One pool member: topics are resolved to configs, a fetched batch is written partition by
    partition, and only what was written is committed. */
module Pool {
  import opened Wrappers
  import opened Models
  import opened Rows
  import opened ClickHouse
  import opened Sink
  import opened Routing
  import opened Repository
  import opened Delivery

  // ---------------------------------------------------------------- the registry

  /** The cached config of a topic, or else the stored one of the pipeline the topic names. */
  function Resolve(cache: map<Topic, PipelineConfig>, configs: map<string, PipelineConfig>,
                   topic: Topic): Option<PipelineConfig>
  {
    if topic in cache then Some(cache[topic]) else
    match TopicPipelineId(topic)
    case None => None
    case Some(id) => if id in configs then Some(configs[id]) else None
  }

  /** topic -> config, read from Redis on a cache miss. */
  class PipelineRegistry {
    const repo: PipelineRepository
    var cache: map<Topic, PipelineConfig>

    constructor (repo: PipelineRepository)
      ensures this.repo == repo && cache == map[]
    {
      this.repo, cache := repo, map[];
    }

    /** What a lookup gives. */
    function Resolves(topic: Topic): Option<PipelineConfig>
      reads this, repo
    {
      Resolve(cache, repo.configs, topic)
    }

    /** A hit changes nothing, a miss is a lookup and is remembered, a failed lookup is
        not. */
    method Get(topic: Topic) returns (config: Option<PipelineConfig>)
      modifies this
      ensures config == old(Resolves(topic))
      ensures cache == if config.Some? then old(cache)[topic := config.value] else old(cache)
      ensures topic in old(cache) ==> config == Some(old(cache)[topic]) && cache == old(cache)
      ensures topic !in old(cache) ==>
        config == (match TopicPipelineId(topic)
                   case None => None
                   case Some(id) => if id in repo.configs then Some(repo.configs[id]) else None)
    {
      if topic in cache {
        assert cache[topic := cache[topic]] == cache;
        return Some(cache[topic]);
      }
      match TopicPipelineId(topic)
      case None => return None;
      case Some(id) =>
        config := repo.GetConfig(id);
        if config.Some? {
          cache := cache[topic := config.value];
        }
    }
  }

  // ---------------------------------------------------------------- the consumer

  /** The member's view of its assignment, and the group's committed offsets. */
  class GroupConsumer {
    var assignment: set<Partition>
    var committed: map<Partition, nat>

    constructor (assignment: set<Partition>)
      ensures this.assignment == assignment && committed == map[]
    {
      this.assignment, committed := assignment, map[];
    }

    /** Rejected if the member was kicked from the group meanwhile. */
    method Commit(offsets: map<Partition, nat>) returns (accepted: bool)
      modifies this`committed
      ensures committed == if accepted then old(committed) + offsets else old(committed)
    {
      accepted := *;
      if accepted {
        committed := committed + offsets;
      }
    }
  }

  datatype Message = Message(raw: string, offset: nat)

  /** The entries of the dict that getmany returned, in order. */
  datatype Batch = Batch(tp: Partition, messages: seq<Message>)

  /** What became of one entry: no longer assigned, no config, written, or the write raised
      and the loop was left. */
  datatype Fate = NotMine | Unconfigured | Written | Failed

  datatype CommitResult = NothingToCommit | Accepted | Rejected

  /** The offset to commit after the entry: one past its last message. */
  function EndOf(batch: Batch): nat
    requires batch.messages != []
  {
    batch.messages[|batch.messages| - 1].offset + 1
  }

  ghost predicate WellFormed(batches: seq<Batch>) {
    && (forall i :: 0 <= i < |batches| ==> batches[i].messages != [])
    && (forall i, j :: 0 <= i < j < |batches| ==> batches[i].tp != batches[j].tp)
  }

  /** The offsets of exactly the entries that were written. */
  function OffsetsOf(batches: seq<Batch>, fates: seq<Fate>): map<Partition, nat>
    requires |fates| <= |batches|
    requires forall i :: 0 <= i < |batches| ==> batches[i].messages != []
  {
    if fates == [] then map[] else
    var last := |fates| - 1;
    var before := OffsetsOf(batches, fates[..last]);
    if fates[last].Written? then before[batches[last].tp := EndOf(batches[last])] else before
  }

  lemma {:induction false} OffsetsNext(batches: seq<Batch>, fates: seq<Fate>, fate: Fate)
    requires |fates| < |batches|
    requires forall i :: 0 <= i < |batches| ==> batches[i].messages != []
    ensures OffsetsOf(batches, fates + [fate]) ==
      if fate.Written? then OffsetsOf(batches, fates)[batches[|fates|].tp := EndOf(batches[|fates|])]
      else OffsetsOf(batches, fates)
  {
    assert (fates + [fate])[..|fates|] == fates;
  }

  lemma {:induction false} OffsetsExactly(batches: seq<Batch>, fates: seq<Fate>, tp: Partition)
    requires WellFormed(batches) && |fates| <= |batches|
    ensures tp in OffsetsOf(batches, fates) <==>
      exists i :: 0 <= i < |fates| && fates[i].Written? && batches[i].tp == tp
    ensures forall i :: 0 <= i < |fates| && fates[i].Written? && batches[i].tp == tp ==>
      tp in OffsetsOf(batches, fates) && OffsetsOf(batches, fates)[tp] == EndOf(batches[i])
  {
    if fates != [] {
      OffsetsExactly(batches, fates[..|fates| - 1], tp);
    }
  }

  // ---------------------------------------------------------------- what a batch leaves behind

  function CoordOf(tp: Partition, offset: nat): Coord {
    Coord(tp.topic, tp.index, offset)
  }

  /** The record is in the given table or in the dead-letter table. */
  ghost predicate Kept(s: Store, table: string, c: Coord) {
    c in Origins(RowsIn(s, table)) || c in LetterOrigins(s.dlq)
  }

  ghost predicate AllKept(s: Store, table: string, batch: Batch) {
    forall m :: m in batch.messages ==> Kept(s, table, CoordOf(batch.tp, m.offset))
  }

  /** t holds all that s holds, in the same places. */
  ghost predicate Extends(s: Store, t: Store) {
    && (forall table :: RowsIn(s, table) <= RowsIn(t, table))
    && s.dlq <= t.dlq
  }

  /** Every row that t has on top of s came from a topic whose config names that table. */
  ghost predicate RowsRouted(s: Store, t: Store, routes: map<Topic, PipelineConfig>) {
    forall table, i :: |RowsIn(s, table)| <= i < |RowsIn(t, table)| ==>
      var topic := RowsIn(t, table)[i].origin.topic;
      topic in routes && Identifies(routes[topic]) == Some(table)
  }

  /** A payload that is not JSON goes on as text. */
  function ValueOf(raw: string, loads: string -> Option<Json>): Json {
    match loads(raw)
    case Some(v) => v
    case None => Str(raw)
  }

  /** The record of one message. */
  function RecordOf(tp: Partition, message: Message, loads: string -> Option<Json>): IncomingRecord {
    IncomingRecord(ValueOf(message.raw, loads), CoordOf(tp, message.offset), message.raw)
  }

  function RecordsOf(batch: Batch, loads: string -> Option<Json>): (r: seq<IncomingRecord>)
    ensures |r| == |batch.messages|
  {
    seq(|batch.messages|, i requires 0 <= i < |batch.messages| => RecordOf(batch.tp, batch.messages[i], loads))
  }

  lemma GrownExtends(s: Store, t: Store, table: string, rows: seq<Stored>, letters: seq<DeadLetter>)
    requires Grew(s, t, table, rows, letters)
    ensures Extends(s, t)
  {
  }

  /** Rows of these records come from the entry's topic. */
  lemma OriginTopic(batch: Batch, loads: string -> Option<Json>, rows: seq<Stored>, letters: seq<DeadLetter>, k: nat)
    requires OnlyTheirs(RecordsOf(batch, loads), rows, letters)
    requires k < |rows|
    ensures rows[k].origin.topic == batch.tp.topic
  {
    var c := Origins(rows)[k];
    assert c in Origins(rows);
    var records := RecordsOf(batch, loads);
    assert c in Coords(records);
    var j :| 0 <= j < |records| && Coords(records)[j] == c;
  }

  lemma NewRowsAreHere(s: Store, t: Store, table: string, batch: Batch, loads: string -> Option<Json>,
                       rows: seq<Stored>, letters: seq<DeadLetter>)
    requires Grew(s, t, table, rows, letters)
    requires OnlyTheirs(RecordsOf(batch, loads), rows, letters)
    ensures forall other, i :: |RowsIn(s, other)| <= i < |RowsIn(t, other)| ==>
      rows != [] && other == table && RowsIn(t, other)[i].origin.topic == batch.tp.topic
  {
    forall other, i | |RowsIn(s, other)| <= i < |RowsIn(t, other)|
      ensures rows != [] && other == table && RowsIn(t, other)[i].origin.topic == batch.tp.topic
    {
      assert other == table;
      OriginTopic(batch, loads, rows, letters, i - |RowsIn(s, table)|);
    }
  }

  lemma EntryKept(s: Store, t: Store, table: string, rows: seq<Stored>, letters: seq<DeadLetter>, c: Coord)
    requires Grew(s, t, table, rows, letters)
    requires c in Origins(rows) || c in LetterOrigins(letters)
    ensures Kept(t, table, c)
  {
    if c in Origins(rows) {
      var i :| 0 <= i < |rows| && Origins(rows)[i] == c;
      assert Origins(RowsIn(t, table))[|RowsIn(s, table)| + i] == c;
    } else {
      var i :| 0 <= i < |letters| && LetterOrigins(letters)[i] == c;
      assert LetterOrigins(t.dlq)[|s.dlq| + i] == c;
    }
  }

  /** A write that returned keeps every one of its records. */
  lemma WriteKeeps(s: Store, t: Store, table: string, batch: Batch, loads: string -> Option<Json>,
                   rows: seq<Stored>, letters: seq<DeadLetter>)
    requires Grew(s, t, table, rows, letters)
    requires Complete(RecordsOf(batch, loads), rows, letters)
    ensures AllKept(t, table, batch)
  {
    var records := RecordsOf(batch, loads);
    forall m | m in batch.messages
      ensures Kept(t, table, CoordOf(batch.tp, m.offset))
    {
      var j :| 0 <= j < |batch.messages| && batch.messages[j] == m;
      assert records[j] in records;
      EntryKept(s, t, table, rows, letters, records[j].coord);
    }
  }

  // ---------------------------------------------------------------- one entry

  /** What a pool process is configured with, and how its server treats failures. */
  datatype Setting = Setting(loads: string -> Option<Json>, parse: string -> Option<Float>, mode: Mode,
                             accepts: Row -> bool)

  datatype Moment = Moment(store: Store, cache: map<Topic, PipelineConfig>)

  /** One entry as it was handled: its fate, the write if there was one, and what there was
      before and after. */
  datatype Handling = Handling(fate: Fate, writing: Option<Writing>, before: Moment, after: Moment)

  ghost predicate SomeTimeWrote(env: Setting, config: PipelineConfig, batch: Batch, s: Store, t: Store, w: Writing) {
    exists now: real :: Wrote(config, RecordsOf(batch, env.loads), s, t, w, env.parse, now, env.mode, env.accepts)
  }

  /** The loop body for one entry.  It is passed over exactly if it is no longer assigned,
      and skipped exactly if its topic does not resolve to a config; otherwise its records
      are written under that config, and its fate is the write's outcome. */
  ghost predicate EntryDone(env: Setting, mine: bool, configs: map<string, PipelineConfig>, batch: Batch, h: Handling) {
    var resolved := Resolve(h.before.cache, configs, batch.tp.topic);
    if !mine then h == Handling(Fate.NotMine, None, h.before, h.before)
    else if resolved.None? then h == Handling(Unconfigured, None, h.before, h.before)
    else
      && h.writing.Some?
      && h.fate == (if h.writing.value.outcome.Raised? then Fate.Failed else Written)
      && h.after.cache == h.before.cache[batch.tp.topic := resolved.value]
      && SomeTimeWrote(env, resolved.value, batch, h.before.store, h.after.store, h.writing.value)
  }

  /** What is new in the cache was looked up in the repository under the id the topic
      names. */
  ghost predicate LookedUp(before: map<Topic, PipelineConfig>, after: map<Topic, PipelineConfig>,
                           configs: map<string, PipelineConfig>)
  {
    forall topic :: topic in after ==>
      || (topic in before && after[topic] == before[topic])
      || (match TopicPipelineId(topic)
          case None => false
          case Some(id) => id in configs && after[topic] == configs[id])
  }

  /** The records of the entry are in the table of its topic's config, or dead-lettered. */
  ghost predicate EntryIsKept(batch: Batch, t: Store, cache: map<Topic, PipelineConfig>) {
    && batch.tp.topic in cache
    && Identifies(cache[batch.tp.topic]).Some?
    && AllKept(t, TableOf(cache[batch.tp.topic]), batch)
  }

  lemma WrittenEntry(env: Setting, config: PipelineConfig, batch: Batch, s: Store, t: Store, w: Writing, now: real)
    requires Wrote(config, RecordsOf(batch, env.loads), s, t, w, env.parse, now, env.mode, env.accepts)
    ensures Extends(s, t) && RowsRouted(s, t, map[batch.tp.topic := config])
    ensures w.outcome.Returned? ==> Identifies(config).Some? && AllKept(t, TableOf(config), batch)
  {
    hide Wrote, Judged, RowsFrom, LettersFrom, SettledExactly, SettledByRow;
    WroteParts(env, config, batch, s, t, w, now);
    GrownExtends(s, t, TableOf(config), w.rows, w.letters);
    NewRowsAreHere(s, t, TableOf(config), batch, env.loads, w.rows, w.letters);
    if w.outcome.Returned? {
      WriteKeeps(s, t, TableOf(config), batch, env.loads, w.rows, w.letters);
    }
  }

  lemma WroteParts(env: Setting, config: PipelineConfig, batch: Batch, s: Store, t: Store, w: Writing, now: real)
    requires Wrote(config, RecordsOf(batch, env.loads), s, t, w, env.parse, now, env.mode, env.accepts)
    ensures Grew(s, t, TableOf(config), w.rows, w.letters) && OnlyTheirs(RecordsOf(batch, env.loads), w.rows, w.letters)
    ensures Identifies(config).None? ==> w.outcome.Raised? && w.rows == []
    ensures w.outcome.Returned? ==> Complete(RecordsOf(batch, env.loads), w.rows, w.letters)
  {
    hide Judged, RowsFrom, LettersFrom, SettledExactly, SettledByRow;
  }

  /** So an entry only adds rows, only to the table of its topic's config, and a written one
      is kept there or dead-lettered. */
  lemma EntryLeaves(env: Setting, mine: bool, configs: map<string, PipelineConfig>, batch: Batch, h: Handling)
    requires EntryDone(env, mine, configs, batch, h)
    ensures Extends(h.before.store, h.after.store)
    ensures RowsRouted(h.before.store, h.after.store, h.after.cache)
    ensures LookedUp(h.before.cache, h.after.cache, configs)
    ensures h.fate.Written? ==> EntryIsKept(batch, h.after.store, h.after.cache)
  {
    hide Wrote;
    var resolved := Resolve(h.before.cache, configs, batch.tp.topic);
    if mine && resolved.Some? {
      var now: real :| Wrote(resolved.value, RecordsOf(batch, env.loads), h.before.store, h.after.store,
                             h.writing.value, env.parse, now, env.mode, env.accepts);
      WrittenEntry(env, resolved.value, batch, h.before.store, h.after.store, h.writing.value, now);
    }
  }

  // ---------------------------------------------------------------- what an entry adds

  lemma TextIsRejected(raw: string, c: PipelineConfig, parse: string -> Option<Float>, now: real, ingestedAt: real)
    ensures ToRow(Str(raw), c, parse, now, ingestedAt) == Mapping.Rejected
  {
  }

  /** The message is JSON, and to_row makes a row of it at this clock. */
  predicate Maps(env: Setting, c: PipelineConfig, raw: string, now: real, ingestedAt: real) {
    env.loads(raw).Some? && ToRow(env.loads(raw).value, c, env.parse, now, ingestedAt).Mapped?
  }

  /** The row is what to_row makes of this message at some clock, and is in the table of the
      config. */
  ghost predicate RowTells(env: Setting, c: PipelineConfig, tp: Partition, m: Message, table: string, a: Stored) {
    && Identifies(c) == Some(table)
    && a.origin == Coord(tp.topic, tp.index, m.offset)
    && exists now: real, ingestedAt: real :: Maps(env, c, m.raw, now, ingestedAt)
        && a.row == ToRow(env.loads(m.raw).value, c, env.parse, now, ingestedAt).row
  }

  /** The letter names the config's pipeline and table, and has the message's coordinates,
      the front of its payload, and the reason: it was refused if it maps, else it does not
      map. */
  ghost predicate LetterTells(env: Setting, c: PipelineConfig, tp: Partition, m: Message, l: DeadLetter) {
    && l.pipelineId == c.pipelineId
    && Identifies(c) == Some(l.table)
    && l.origin == Coord(tp.topic, tp.index, m.offset)
    && l.payload == (if |m.raw| <= 64000 then m.raw else m.raw[..64000])
    && exists now: real, ingestedAt: real ::
         l.reason == if Maps(env, c, m.raw, now, ingestedAt) then InsertFailed else Unmappable
  }

  ghost predicate RowSays(env: Setting, c: PipelineConfig, batch: Batch, table: string, a: Stored) {
    exists m :: m in batch.messages && RowTells(env, c, batch.tp, m, table, a)
  }

  ghost predicate LetterSays(env: Setting, c: PipelineConfig, batch: Batch, l: DeadLetter) {
    exists m :: m in batch.messages && LetterTells(env, c, batch.tp, m, l)
  }

  lemma WrittenRowSays(env: Setting, c: PipelineConfig, batch: Batch, rows: seq<Stored>, now: real, a: Stored)
    requires RowsFrom(RecordsOf(batch, env.loads), rows, c, env.parse, now) && a in rows && Identifies(c).Some?
    ensures RowSays(env, c, batch, TableOf(c), a)
  {
    hide ToRow;
    var records := RecordsOf(batch, env.loads);
    assert StemsFrom(records, a, c, env.parse, now);
    var r :| r in records && a.origin == r.coord && MappedBy(r, a.row, c, env.parse, now);
    var at: real, ingestedAt: real :| at <= now && ToRow(r.value, c, env.parse, at, ingestedAt) == Mapped(a.row);
    var j :| 0 <= j < |records| && records[j] == r;
    TextIsRejected(batch.messages[j].raw, c, env.parse, at, ingestedAt);
    assert Maps(env, c, batch.messages[j].raw, at, ingestedAt);
    assert RowTells(env, c, batch.tp, batch.messages[j], TableOf(c), a);
  }

  lemma WrittenLetterSays(env: Setting, c: PipelineConfig, batch: Batch, w: Writing, now: real, l: DeadLetter)
    requires Identifies(c).Some? && l in w.letters
    requires Judged(RecordsOf(batch, env.loads), w.verdicts, w.times, c, env.parse, now)
    requires LettersFrom(RecordsOf(batch, env.loads), w.verdicts, w.letters, c.pipelineId, TableOf(c))
    ensures LetterSays(env, c, batch, l)
  {
    hide ToRow;
    var records := RecordsOf(batch, env.loads);
    assert LetterFrom(records, w.verdicts, l, c.pipelineId, TableOf(c));
    var i :| 0 <= i < |records| &&
      l == LetterOf(Dead(records[i], if w.verdicts[i].Mapped? then InsertFailed else Unmappable), c.pipelineId,
                    TableOf(c));
    var m := batch.messages[i];
    var (at, ingestedAt) := w.times[i];
    TextIsRejected(m.raw, c, env.parse, at, ingestedAt);
    assert l.reason == if Maps(env, c, m.raw, at, ingestedAt) then InsertFailed else Unmappable;
    assert LetterTells(env, c, batch.tp, m, l);
  }

  /** All that is new in the store says whose it is. */
  ghost predicate AllTell(env: Setting, c: PipelineConfig, batch: Batch, s: Store, t: Store) {
    && (forall table, k :: |RowsIn(s, table)| <= k < |RowsIn(t, table)| ==>
        RowSays(env, c, batch, table, RowsIn(t, table)[k]))
    && (forall k :: |s.dlq| <= k < |t.dlq| ==> LetterSays(env, c, batch, t.dlq[k]))
  }

  lemma WrittenTells(env: Setting, c: PipelineConfig, batch: Batch, s: Store, t: Store, w: Writing)
    requires SomeTimeWrote(env, c, batch, s, t, w)
    ensures AllTell(env, c, batch, s, t)
  {
    hide RowSays, LetterSays, Judged, RowsFrom, LettersFrom, Settled, SettledExactly, SettledByRow, OnlyTheirs,
      RecordsOf;
    var now: real :| Wrote(c, RecordsOf(batch, env.loads), s, t, w, env.parse, now, env.mode, env.accepts);
    forall table, k | |RowsIn(s, table)| <= k < |RowsIn(t, table)|
      ensures RowSays(env, c, batch, table, RowsIn(t, table)[k])
    {
      assert table == TableOf(c) && RowsIn(t, table)[k] == w.rows[k - |RowsIn(s, table)|];
      WrittenRowSays(env, c, batch, w.rows, now, RowsIn(t, table)[k]);
    }
    forall k | |s.dlq| <= k < |t.dlq| ensures LetterSays(env, c, batch, t.dlq[k]) {
      assert t.dlq[k] == w.letters[k - |s.dlq|];
      WrittenLetterSays(env, c, batch, w, now, t.dlq[k]);
    }
  }

  /** Every row and every dead letter that an entry adds is that of one of its messages,
      under the config its topic resolves to. */
  lemma EntryTells(env: Setting, mine: bool, configs: map<string, PipelineConfig>, batch: Batch, h: Handling)
    requires EntryDone(env, mine, configs, batch, h)
    ensures h.after.store != h.before.store ==>
      batch.tp.topic in h.after.cache
      && AllTell(env, h.after.cache[batch.tp.topic], batch, h.before.store, h.after.store)
  {
    hide SomeTimeWrote, AllTell;
    var resolved := Resolve(h.before.cache, configs, batch.tp.topic);
    if mine && resolved.Some? {
      WrittenTells(env, resolved.value, batch, h.before.store, h.after.store, h.writing.value);
    }
  }

  // ---------------------------------------------------------------- one batch

  /** One entry after the other. */
  ghost predicate Chained(steps: seq<Handling>, before: Moment, after: Moment) {
    if steps == [] then before == after else
    var last := |steps| - 1;
    steps[last].after == after && Chained(steps[..last], before, steps[last].before)
  }

  function Fates(steps: seq<Handling>): (r: seq<Fate>)
    ensures |r| == |steps|
  {
    seq(|steps|, i requires 0 <= i < |steps| => steps[i].fate)
  }

  ghost predicate EntriesDone(env: Setting, assignment: set<Partition>, configs: map<string, PipelineConfig>,
                              batches: seq<Batch>, steps: seq<Handling>, before: Moment, after: Moment)
  {
    && |steps| <= |batches|
    && (forall i :: 0 <= i < |steps| ==> EntryDone(env, batches[i].tp in assignment, configs, batches[i], steps[i]))
    && Chained(steps, before, after)
  }

  /** The loop is left exactly at the first write that raises. */
  ghost predicate StopsAtFailure(batches: seq<Batch>, fates: seq<Fate>) {
    && (forall i :: 0 <= i < |fates| - 1 ==> !fates[i].Failed?)
    && (|fates| < |batches| ==> fates != [] && fates[|fates| - 1].Failed?)
  }

  lemma OneMoreEntry(env: Setting, assignment: set<Partition>, configs: map<string, PipelineConfig>,
                     batches: seq<Batch>, steps: seq<Handling>, before: Moment, h: Handling)
    requires EntriesDone(env, assignment, configs, batches, steps, before, h.before) && |steps| < |batches|
    requires EntryDone(env, batches[|steps|].tp in assignment, configs, batches[|steps|], h)
    ensures EntriesDone(env, assignment, configs, batches, steps + [h], before, h.after)
    ensures Fates(steps + [h]) == Fates(steps) + [h.fate]
  {
    hide EntryDone;
    assert (steps + [h])[..|steps|] == steps;
  }

  class ConsumerPool {
    const registry: PipelineRegistry
    const sink: ClickHouseSink
    const server: Server
    const consumer: GroupConsumer
    const loads: string -> Option<Json>

    constructor (registry: PipelineRegistry, sink: ClickHouseSink, consumer: GroupConsumer,
                 loads: string -> Option<Json>)
      ensures this.registry == registry && this.sink == sink && this.server == sink.server
      ensures this.consumer == consumer && this.loads == loads
    {
      this.registry, this.sink, this.server := registry, sink, sink.server;
      this.consumer, this.loads := consumer, loads;
    }

    ghost predicate Valid()
    {
      sink.Valid() && server == sink.server
    }

    function Env(): Setting {
      Setting(loads, sink.parse, server.mode, server.accepts)
    }

    ghost function Here(): Moment
      reads server, registry
    {
      Moment(server.store, registry.cache)
    }

    method MakeRecords(batch: Batch) returns (records: seq<IncomingRecord>)
      ensures records == RecordsOf(batch, loads)
      ensures forall i :: 0 <= i < |batch.messages| ==>
        var (r, m) := (records[i], batch.messages[i]);
        && r.raw == m.raw && r.coord == Coord(batch.tp.topic, batch.tp.index, m.offset)
        && r.value == if loads(m.raw).Some? then loads(m.raw).value else Str(m.raw)
    {
      records := [];
      for i := 0 to |batch.messages|
        invariant |records| == i
        invariant forall j :: 0 <= j < i ==> records[j] == RecordOf(batch.tp, batch.messages[j], loads)
      {
        var raw := batch.messages[i].raw;
        var value := match loads(raw) case Some(v) => v case None => Str(raw);
        records := records + [IncomingRecord(value, CoordOf(batch.tp, batch.messages[i].offset), raw)];
      }
    }

    /** The loop body for one partition. */
    method HandleEntry(batch: Batch) returns (fate: Fate, ghost writing: Option<Writing>)
      requires Valid()
      modifies registry, sink, sink.manager, server, sink.clock
      ensures EntryDone(Env(), batch.tp in consumer.assignment, registry.repo.configs, batch,
                        Handling(fate, writing, old(Here()), Here()))
    {
      hide Wrote;
      writing := None;
      if batch.tp !in consumer.assignment {
        return Fate.NotMine, None;
      }
      var resolved := registry.Get(batch.tp.topic);
      if resolved == None {
        return Unconfigured, None;
      }
      var records := MakeRecords(batch);
      var outcome; ghost var w;
      outcome, w := sink.Write(resolved.value, records);
      fate := if outcome.Raised? then Fate.Failed else Written;
      writing := Some(w);
    }

    /** Inserts every partition's records in turn, up to the first write that raises, then
        commits exactly the partitions that were written. */
    method InsertThenCommit(batches: seq<Batch>) returns (commit: CommitResult, ghost steps: seq<Handling>)
      requires Valid() && WellFormed(batches)
      modifies registry, sink, sink.manager, server, sink.clock, consumer`committed
      ensures EntriesDone(Env(), consumer.assignment, registry.repo.configs, batches, steps, old(Here()), Here())
      ensures StopsAtFailure(batches, Fates(steps))
      ensures commit.NothingToCommit? <==> OffsetsOf(batches, Fates(steps)) == map[]
      ensures consumer.committed ==
        if commit.Accepted? then old(consumer.committed) + OffsetsOf(batches, Fates(steps)) else old(consumer.committed)
    {
      hide EntryDone, Chained;
      steps := [];
      ghost var start := Here();
      NoEntries(Env(), consumer.assignment, registry.repo.configs, batches, start);
      var offsets: map<Partition, nat> := map[];
      var i := 0;
      while i < |batches|
        invariant |steps| == i <= |batches|
        invariant EntriesDone(Env(), consumer.assignment, registry.repo.configs, batches, steps, start, Here())
        invariant forall j :: 0 <= j < i ==> !Fates(steps)[j].Failed?
        invariant offsets == OffsetsOf(batches, Fates(steps))
        invariant consumer.committed == old(consumer.committed)
      {
        ghost var before := Here();
        var fate; ghost var writing;
        fate, writing := HandleEntry(batches[i]);
        ghost var h := Handling(fate, writing, before, Here());
        OneMoreEntry(Env(), consumer.assignment, registry.repo.configs, batches, steps, start, h);
        OffsetsNext(batches, Fates(steps), fate);
        steps := steps + [h];
        if fate.Failed? {
          // ClickHouse is unreachable: commit what was written before, leave the rest.
          break;
        }
        if fate.Written? {
          offsets := offsets[batches[i].tp := EndOf(batches[i])];
        }
        i := i + 1;
      }
      if offsets == map[] {
        return NothingToCommit, steps;
      }
      var accepted := consumer.Commit(offsets);
      commit := if accepted then Accepted else CommitResult.Rejected;
    }
  }

  lemma NoEntries(env: Setting, assignment: set<Partition>, configs: map<string, PipelineConfig>, batches: seq<Batch>,
                  m: Moment)
    ensures EntriesDone(env, assignment, configs, batches, [], m, m)
    ensures Fates([]) == []
  {
  }
}

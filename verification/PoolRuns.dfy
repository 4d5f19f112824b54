/** Runs of the whole system that the code can make: one member that handles one message at a
    time, and what its writes leave in the store. */
module PoolRuns {
  import opened Wrappers
  import opened Models
  import opened Rows
  import opened ClickHouse
  import opened Sink
  import opened Delivery
  import opened DeliverySafety
  import opened Routing
  import opened Pool
  import opened PoolSystem

  // ---------------------------------------------------------------- messages that are inserted

  /** This message maps under the config, at this clock, to a row that the server does not
      refuse. */
  ghost predicate Inserts(env: Setting, c: PipelineConfig, raw: string, now: real, ingestedAt: real) {
    && env.loads(raw).Some?
    && var verdict := ToRow(env.loads(raw).value, c, env.parse, now, ingestedAt);
       verdict.Mapped? && (env.mode.ByRow? ==> ClickHouse.Accepted(env.accepts, verdict.row))
  }

  /** Some message can end up in the config's table. */
  ghost predicate Insertable(env: Setting, c: PipelineConfig) {
    exists raw: string, now: real, ingestedAt: real :: Inserts(env, c, raw, now, ingestedAt)
  }

  lemma InsertedAs(records: seq<IncomingRecord>, record: IncomingRecord, row: Row, accepts: Row -> bool, mode: Mode)
    requires records == [record] && (mode.ByRow? ==> ClickHouse.Accepted(accepts, row))
    ensures
      var stored := Stored(row, record.coord);
      && OnlyTheirs(records, [stored], [])
      && Settled(records, [Mapped(row)], [stored], [], WriteResult(1, 0, []))
      && SettledExactly(records, [stored], [], WriteResult(1, 0, []))
      && (mode.ByRow? ==> SettledByRow(records, [Mapped(row)], accepts, [stored], []))
  {
    var (stored, verdicts) := (Stored(row, record.coord), [Mapped(row)]);
    assert Origins([stored]) == [record.coord] == Coords(records);
    assert Origins([stored])[0] == record.coord;
    assert LetterOrigins([]) == [];
    assert FittingRows([], []) == [] && records[..0] == [] && verdicts[..0] == [];
    assert FittingRows(records, verdicts) == [stored];
    assert Unfit([], []) == [] && Unfit(records, verdicts) == [];
    assert LetterReasons([]) == [];
    if mode.ByRow? {
      AllAreAcceptable([stored], accepts);
      assert DeadCoords([]) == [] && Origins([]) == [];
    }
  }

  /** Such a message is written as one row. */
  lemma InsertsOneRow(env: Setting, c: PipelineConfig, batch: Batch, s: Store, now: real, ingestedAt: real)
      returns (w: Writing, row: Stored)
    requires |batch.messages| == 1 && Inserts(env, c, batch.messages[0].raw, now, ingestedAt)
    requires Identifies(c).Some?
    ensures w.outcome.Returned? && w.rows == [row] && row.origin == CoordOf(batch.tp, batch.messages[0].offset)
    ensures SomeTimeWrote(env, c, batch, s, Apply(s, Insert(TableOf(c), [row])), w)
  {
    hide ToRow, Identifies;
    var record := RecordOf(batch.tp, batch.messages[0], env.loads);
    assert RecordsOf(batch, env.loads) == [record];
    var verdict := ToRow(record.value, c, env.parse, now, ingestedAt);
    row := Stored(verdict.row, record.coord);
    w := Writing(Returned(WriteResult(1, 0, [])), [row], [], [verdict], [(now, ingestedAt)]);
    InsertedAs([record], record, verdict.row, env.accepts, env.mode);
    JudgedAlone(record, verdict, c, env.parse, now, ingestedAt);
    hide Settled, SettledExactly, SettledByRow, RowsFrom, OnlyTheirs, Judged, TableOf;
    var t := Apply(s, Insert(TableOf(c), [row]));
    assert Grew(s, t, TableOf(c), [row], []);
    assert Wrote(c, [record], s, t, w, env.parse, now, env.mode, env.accepts);
  }

  lemma JudgedAlone(record: IncomingRecord, verdict: Mapping, c: PipelineConfig, parse: string -> Option<Float>,
                    now: real, ingestedAt: real)
    requires verdict == ToRow(record.value, c, parse, now, ingestedAt) && verdict.Mapped?
    ensures Judged([record], [verdict], [(now, ingestedAt)], c, parse, now)
    ensures RowsFrom([record], [Stored(verdict.row, record.coord)], c, parse, now)
  {
    hide ToRow;
    assert MappedBy(record, verdict.row, c, parse, now);
    assert StemsFrom([record], Stored(verdict.row, record.coord), c, parse, now) by { assert record in [record]; }
  }

  /** Only such messages become rows. */
  lemma RowsAreInsertable(env: Setting, c: PipelineConfig, batch: Batch, s: Store, t: Store, w: Writing)
    requires SomeTimeWrote(env, c, batch, s, t, w) && w.rows != []
    ensures Insertable(env, c)
  {
    hide Grew, OnlyTheirs, Judged, LettersFrom, SettledExactly, RowsFrom, Complete, RecordsOf;
    var now: real :| Wrote(c, RecordsOf(batch, env.loads), s, t, w, env.parse, now, env.mode, env.accepts);
    var j, at, ingestedAt := FirstRowStems(env, c, batch, w.rows, now);
    if env.mode.ByRow? {
      FirstIsAccepted(FittingRows(RecordsOf(batch, env.loads), w.verdicts), w.rows, env.accepts);
    }
    assert Inserts(env, c, batch.messages[j].raw, at, ingestedAt);
  }

  lemma FirstRowStems(env: Setting, c: PipelineConfig, batch: Batch, rows: seq<Stored>, now: real)
      returns (j: nat, at: real, ingestedAt: real)
    requires RowsFrom(RecordsOf(batch, env.loads), rows, c, env.parse, now) && rows != []
    ensures j < |batch.messages| && env.loads(batch.messages[j].raw).Some?
    ensures ToRow(env.loads(batch.messages[j].raw).value, c, env.parse, at, ingestedAt) == Mapped(rows[0].row)
  {
    hide ToRow;
    var records := RecordsOf(batch, env.loads);
    assert rows[0] in rows && StemsFrom(records, rows[0], c, env.parse, now);
    var r :| r in records && rows[0].origin == r.coord && MappedBy(r, rows[0].row, c, env.parse, now);
    at, ingestedAt :| at <= now && ToRow(r.value, c, env.parse, at, ingestedAt) == Mapped(rows[0].row);
    j :| 0 <= j < |records| && records[j] == r;
    TextIsRejected(batch.messages[j].raw, c, env.parse, at, ingestedAt);
  }

  /** Every row that t has on top of s came from a topic whose config can have messages
      inserted. */
  ghost predicate RowsInsertable(env: Setting, s: Store, t: Store, routes: map<Topic, PipelineConfig>) {
    forall table, i :: |RowsIn(s, table)| <= i < |RowsIn(t, table)| ==>
      var topic := RowsIn(t, table)[i].origin.topic;
      topic in routes && Insertable(env, routes[topic])
  }

  lemma WrittenRowsInsertable(env: Setting, c: PipelineConfig, batch: Batch, s: Store, t: Store, w: Writing)
    requires SomeTimeWrote(env, c, batch, s, t, w)
    ensures RowsInsertable(env, s, t, map[batch.tp.topic := c])
  {
    hide Insertable, Judged, RowsFrom, LettersFrom, Settled, SettledExactly, SettledByRow, RecordsOf;
    var now: real :| Wrote(c, RecordsOf(batch, env.loads), s, t, w, env.parse, now, env.mode, env.accepts);
    NewRowsAreHere(s, t, TableOf(c), batch, env.loads, w.rows, w.letters);
    if w.rows != [] {
      RowsAreInsertable(env, c, batch, s, t, w);
    }
  }

  lemma EntryRowsInsertable(env: Setting, mine: bool, configs: map<string, PipelineConfig>, batch: Batch, h: Handling)
    requires EntryDone(env, mine, configs, batch, h)
    ensures RowsInsertable(env, h.before.store, h.after.store, h.after.cache)
  {
    hide Insertable, SomeTimeWrote;
    var resolved := Resolve(h.before.cache, configs, batch.tp.topic);
    if mine && resolved.Some? {
      WrittenRowsInsertable(env, resolved.value, batch, h.before.store, h.after.store, h.writing.value);
    }
  }

  lemma FirstIsAccepted(rows: seq<Stored>, added: seq<Stored>, accepts: Row -> bool)
    requires SameRows(added, Acceptable(rows, accepts)) && added != []
    ensures ClickHouse.Accepted(accepts, added[0].row)
  {
    AcceptableIsAccepted(rows, accepts, 0);
    SameAcceptance(added[0].row, Acceptable(rows, accepts)[0].row, accepts);
  }

  lemma {:induction false} AcceptableIsAccepted(rows: seq<Stored>, accepts: Row -> bool, i: nat)
    requires i < |Acceptable(rows, accepts)|
    ensures ClickHouse.Accepted(accepts, Acceptable(rows, accepts)[i].row)
  {
    var early := Acceptable(rows[..|rows| - 1], accepts);
    if i < |early| {
      AcceptableIsAccepted(rows[..|rows| - 1], accepts, i);
    }
  }

  // ---------------------------------------------------------------- runs put together

  lemma {:induction false} SystemsConcatenate(env: Setting, s: System, first: seq<Step>, second: seq<Step>)
    requires SystemRun(env, s, first, false)
    requires SystemRun(env, SystemExec(env, s, first), second, false)
    ensures SystemRun(env, s, first + second, false)
    ensures SystemExec(env, s, first + second) == SystemExec(env, SystemExec(env, s, first), second)
    decreases |first|
  {
    hide CanStep, SystemNext, NoGap;
    if first == [] {
      assert first + second == second;
    } else {
      var t := SystemNext(env, s, first[0]);
      SystemsConcatenate(env, t, first[1..], second);
      assert (first + second)[1..] == first[1..] + second && (first + second)[0] == first[0];
    }
  }

  ghost predicate NothingCached(s: System) {
    forall m :: m in s.caches ==> s.caches[m] == map[]
  }

  /** Only the protocol's side has moved. */
  ghost predicate GroupMoves(s: System, t: System, g: Group) {
    && PoolSystem.Inv(t) && NothingCached(t)
    && t.group == g && t.store == s.store && t.configs == s.configs && t.ever == s.ever
  }

  lemma OutsideMoves(env: Setting, s: System, e: Event)
    requires PoolSystem.Inv(s) && NothingCached(s) && IsOutside(e) && Enabled(s.group, e)
    ensures CanStep(env, s, Outside(e))
    ensures GroupMoves(s, SystemNext(env, s, Outside(e)), Next(s.group, e))
  {
    OutsideInv(env, s, e);
    hide PoolSystem.Inv, Enabled, Next;
  }

  /** What happens outside the members' code happens to the system. */
  lemma {:induction false} OutsideRun(env: Setting, s: System, events: seq<Event>) returns (steps: seq<Step>)
    requires PoolSystem.Inv(s) && NothingCached(s)
    requires Delivery.Run(s.group, events, false) && forall e :: e in events ==> IsOutside(e)
    ensures SystemRun(env, s, steps, false)
    ensures GroupMoves(s, SystemExec(env, s, steps), Exec(s.group, events))
    decreases |events|
  {
    hide PoolSystem.Inv, Enabled, Next, CanStep, SystemNext, NothingCached;
    if events == [] {
      steps := [];
    } else {
      OutsideMoves(env, s, events[0]);
      var t := SystemNext(env, s, Outside(events[0]));
      var later := OutsideRun(env, t, events[1..]);
      SystemStarts(env, s, Outside(events[0]), later, false);
      steps := [Outside(events[0])] + later;
    }
  }

  // ---------------------------------------------------------------- one member, one partition

  /** Member 0 is idle at offset k of tp, its only partition. */
  ghost predicate Ready(s: System, tp: Partition, k: nat) {
    && PoolSystem.Inv(s)
    && 0 in s.group.members && s.group.members[0] == Member({tp}, map[tp := k], [], false, map[])
    && 0 in s.caches
    && tp in s.group.owner && s.group.owner[tp] == 0
    && tp in s.group.ends && Get(s.group.starts, tp) == 0
  }

  /** From the start: a topic with two records, and member 0 about to read them. */
  lemma TwoRecordsReady(env: Setting, tp: Partition) returns (steps: seq<Step>)
    ensures SystemRun(env, START, steps, false)
    ensures
      var t := SystemExec(env, START, steps);
      && Ready(t, tp, 0) && t.caches[0] == map[]
      && t.store == START.store && t.configs == map[] && t.ever == {}
      && t.group.ends == map[tp := 2] && t.group.committed == map[]
  {
    StartInv();
    var events := TwoRecordsOneMember(tp);
    steps := OutsideRun(env, START, events);
    var t := SystemExec(env, START, steps);
    assert MemberFits(t, 0);
  }

  /** Registering a pipeline changes nothing else. */
  lemma RegisterReady(env: Setting, s: System, tp: Partition, k: nat, c: PipelineConfig)
    requires Ready(s, tp, k)
    ensures SystemRun(env, s, [Register(c)], false)
    ensures SystemExec(env, s, [Register(c)]) == s.(configs := s.configs[c.pipelineId := c], ever := s.ever + {c})
    ensures Ready(SystemExec(env, s, [Register(c)]), tp, k)
  {
    RegisterInv(env, s, c);
    assert [Register(c)][1..] == [];
    assert SystemRun(env, SystemNext(env, s, Register(c)), [], false);
  }

  function OneMessage(tp: Partition, k: nat, raw: string): Batch {
    Batch(tp, [Message(raw, k)])
  }

  /** The member has handled one message, and committed it if it was written. */
  ghost predicate OneHandled(s: System, t: System, tp: Partition, k: nat, h: Handling) {
    && Ready(t, tp, k + 1)
    && t.store == h.after.store && t.caches[0] == h.after.cache
    && t.configs == s.configs && t.ever == s.ever
    && t.group.ends == s.group.ends && t.group.starts == s.group.starts
    && t.group.committed == if h.fate.Written? then s.group.committed[tp := k + 1] else s.group.committed
  }

  /** The state with the message in hand. */
  ghost function FetchedOne(s: System, tp: Partition, k: nat): System {
    var me := Member({tp}, map[tp := k + 1], [Range(tp, k, k + 1)], false, map[]);
    s.(group := s.group.(members := s.group.members[0 := me]))
  }

  lemma OneFetched(env: Setting, s: System, tp: Partition, k: nat, raw: string)
    requires Ready(s, tp, k) && k < s.group.ends[tp]
    ensures CanStep(env, s, Outside(Fetch(0, [Range(tp, k, k + 1)])))
    ensures SystemNext(env, s, Outside(Fetch(0, [Range(tp, k, k + 1)]))) == FetchedOne(s, tp, k)
    ensures PoolSystem.Inv(FetchedOne(s, tp, k))
    ensures CanStep(env, FetchedOne(s, tp, k), BeginBatch(0, [OneMessage(tp, k, raw)]))
  {
    hide MemberFits, Backed, Filed;
    var e := Fetch(0, [Range(tp, k, k + 1)]);
    assert Enabled(s.group, e);
    assert Advance(map[tp := k], [Range(tp, k, k + 1)]) == map[tp := k + 1];
    OutsideInv(env, s, e);
    assert RangesOf([OneMessage(tp, k, raw)]) == [Range(tp, k, k + 1)];
  }

  lemma OneLeft(s: System, t: System, tp: Partition, k: nat, h: Handling)
    requires Ready(s, tp, k)
    requires BatchLeaves(FetchedOne(s, tp, k), t, 0, if h.fate.Written? then map[tp := k + 1] else map[], h.after, true)
    ensures OneHandled(s, t, tp, k, h)
  {
    hide PoolSystem.Inv;
  }

  /** A batch of one entry. */
  lemma OneEntry(env: Setting, assignment: set<Partition>, configs: map<string, PipelineConfig>, batch: Batch,
                 h: Handling)
    requires batch.messages != [] && EntryDone(env, batch.tp in assignment, configs, batch, h)
    ensures EntriesDone(env, assignment, configs, [batch], [h], h.before, h.after)
    ensures StopsAtFailure([batch], Fates([h]))
    ensures OffsetsOf([batch], Fates([h])) == if h.fate.Written? then map[batch.tp := EndOf(batch)] else map[]
  {
    hide EntryDone;
    assert [h][..0] == [] && Fates([h]) == [h.fate] && [h.fate][..0] == [];
    assert Chained([h][..0], h.before, h.before);
    assert OffsetsOf([batch], []) == map[];
  }

  lemma InBatchSteps(m: MemberId, batches: seq<Batch>, h: Handling)
    ensures HandleEntry(m, h) in [BeginBatch(m, batches)] + (HandleSteps(m, [h]) + [CommitBatch(m, true)])
  {
    assert HandleSteps(m, [h])[0] == HandleEntry(m, h);
  }

  /** The member fetches one message, handles it as the code does, and commits. */
  lemma HandleOne(env: Setting, s: System, tp: Partition, k: nat, raw: string, h: Handling) returns (steps: seq<Step>)
    requires Ready(s, tp, k) && k < s.group.ends[tp]
    requires h.before == Moment(s.store, s.caches[0])
    requires EntryDone(env, true, s.configs, OneMessage(tp, k, raw), h)
    ensures SystemRun(env, s, steps, false) && HandleEntry(0, h) in steps
    ensures OneHandled(s, SystemExec(env, s, steps), tp, k, h)
  {
    hide PoolSystem.Inv, EntryDone, CanStep, SystemNext, EntriesDone, StopsAtFailure, OneHandled;
    OneFetched(env, s, tp, k, raw);
    var (fetch, batch) := (Outside(Fetch(0, [Range(tp, k, k + 1)])), OneMessage(tp, k, raw));
    OneEntry(env, {tp}, s.configs, batch, h);
    hide HandleSteps, BatchLeaves;
    var later := BatchIsSystemRun(env, FetchedOne(s, tp, k), 0, [batch], [h], h.after, true);
    SystemStarts(env, s, fetch, later, false);
    InBatchSteps(0, [batch], h);
    steps := [fetch] + later;
    OneLeft(s, SystemExec(env, s, steps), tp, k, h);
  }

  /** A message that the config can have inserted is handled like this. */
  lemma InsertedEntry(env: Setting, configs: map<string, PipelineConfig>, tp: Partition, k: nat, c: PipelineConfig,
                      before: Moment)
      returns (raw: string, h: Handling, row: Stored)
    requires Resolve(before.cache, configs, tp.topic) == Some(c) && Identifies(c).Some? && Insertable(env, c)
    ensures row.origin == CoordOf(tp, k)
    ensures h.before == before && h.fate.Written?
    ensures h.after == Moment(Apply(before.store, Insert(TableOf(c), [row])), before.cache[tp.topic := c])
    ensures EntryDone(env, true, configs, OneMessage(tp, k, raw), h)
  {
    hide Identifies, SomeTimeWrote, Resolve;
    var now: real, ingestedAt: real;
    raw, now, ingestedAt :| Inserts(env, c, raw, now, ingestedAt);
    var w;
    w, row := InsertsOneRow(env, c, OneMessage(tp, k, raw), before.store, now, ingestedAt);
    var after := Moment(Apply(before.store, Insert(TableOf(c), [row])), before.cache[tp.topic := c]);
    h := Handling(Written, Some(w), before, after);
  }

  /** It goes to the config's table as one row, and is committed. */
  lemma InsertOne(env: Setting, s: System, tp: Partition, k: nat, c: PipelineConfig)
      returns (steps: seq<Step>, row: Stored)
    requires Ready(s, tp, k) && k < s.group.ends[tp]
    requires Resolve(s.caches[0], s.configs, tp.topic) == Some(c) && Identifies(c).Some? && Insertable(env, c)
    ensures row.origin == CoordOf(tp, k)
    ensures SystemRun(env, s, steps, false)
    ensures
      var t := SystemExec(env, s, steps);
      && Ready(t, tp, k + 1)
      && t.store == Apply(s.store, Insert(TableOf(c), [row]))
      && t.configs == s.configs && t.ever == s.ever
      && t.group.starts == s.group.starts && t.group.committed == s.group.committed[tp := k + 1]
  {
    assert 0 in s.caches;
    hide Ready, Identifies, Insertable, EntryDone, Resolve, TableOf, Apply, CoordOf, CanStep, SystemNext;
    var raw, h;
    raw, h, row := InsertedEntry(env, s.configs, tp, k, c, Moment(s.store, s.caches[0]));
    steps := HandleOne(env, s, tp, k, raw, h);
  }

  /** One run after another. */
  lemma RunThen(env: Setting, first: seq<Step>, second: seq<Step>) returns (steps: seq<Step>)
    requires SystemRun(env, START, first, false)
    requires SystemRun(env, SystemExec(env, START, first), second, false)
    ensures steps == first + second && SystemRun(env, START, steps, false)
    ensures SystemExec(env, START, steps) == SystemExec(env, SystemExec(env, START, first), second)
  {
    SystemsConcatenate(env, START, first, second);
    steps := first + second;
  }
}

/** What the pool can lose: for which topics a record can end up below the committed offset,
    still retained, without being in its own table or in the dead-letter table. */
module Loss {
  import opened Wrappers
  import opened Models
  import opened Rows
  import opened ClickHouse
  import opened Sink
  import opened Routing
  import opened Delivery
  import opened Pool
  import opened PoolSystem
  import opened PoolRuns

  // ---------------------------------------------------------------- writes that return

  /** This message is judged without an overflow, at this clock. */
  predicate Judges(env: Setting, c: PipelineConfig, raw: string, now: real, ingestedAt: real) {
    !ToRow(ValueOf(raw, env.loads), c, env.parse, now, ingestedAt).Overflowed?
  }

  /** Some message can be written, to the table or to the dead letters. */
  ghost predicate Writable(env: Setting, c: PipelineConfig) {
    exists raw: string, now: real, ingestedAt: real :: Judges(env, c, raw, now, ingestedAt)
  }

  /** A record that does not map, or is refused, is written as one letter. */
  lemma LetterAlone(record: IncomingRecord, verdict: Mapping, c: PipelineConfig, accepts: Row -> bool)
    requires !verdict.Overflowed? && (verdict.Mapped? ==> !ClickHouse.Accepted(accepts, verdict.row))
    ensures
      var reason := if verdict.Mapped? then InsertFailed else Unmappable;
      var letter := LetterOf(Dead(record, reason), c.pipelineId, TableOf(c));
      && OnlyTheirs([record], [], [letter])
      && LettersFrom([record], [verdict], [letter], c.pipelineId, TableOf(c))
      && Settled([record], [verdict], [], [letter], WriteResult(0, 1, [reason]))
      && SettledExactly([record], [], [letter], WriteResult(0, 1, [reason]))
      && SettledByRow([record], [verdict], accepts, [], [letter])
  {
    hide TableOf, Identifies;
    var reason := if verdict.Mapped? then InsertFailed else Unmappable;
    var letter := LetterOf(Dead(record, reason), c.pipelineId, TableOf(c));
    var (records, verdicts) := ([record], [verdict]);
    assert LetterOrigins([letter]) == [record.coord] == Coords(records);
    assert LetterOrigins([letter])[0] == record.coord;
    assert Origins([]) == [] && LetterReasons([letter]) == [reason];
    assert FittingRows([], []) == [] && Unfit([], []) == [] && records[..0] == [] && verdicts[..0] == [];
    assert Acceptable([], accepts) == [] && Refused([], accepts) == [];
    if verdict.Mapped? {
      var row := Stored(verdict.row, record.coord);
      assert FittingRows(records, verdicts) == [row] && Unfit(records, verdicts) == [];
      assert [row][..0] == [];
      assert DeadCoords([]) == [] && Origins([row]) == [record.coord];
    } else {
      assert FittingRows(records, verdicts) == [] && Unfit(records, verdicts) == [Dead(record, Unmappable)];
      assert DeadCoords([Dead(record, Unmappable)]) == [record.coord];
    }
  }

  lemma WritesOneLetter(env: Setting, c: PipelineConfig, batch: Batch, s: Store, now: real, ingestedAt: real)
      returns (w: Writing, t: Store)
    requires |batch.messages| == 1 && Judges(env, c, batch.messages[0].raw, now, ingestedAt)
    requires
      var verdict := ToRow(ValueOf(batch.messages[0].raw, env.loads), c, env.parse, now, ingestedAt);
      verdict.Mapped? ==> !ClickHouse.Accepted(env.accepts, verdict.row)
    requires Identifies(c).Some?
    ensures w.outcome.Returned? && SomeTimeWrote(env, c, batch, s, t, w)
  {
    hide ToRow, Identifies;
    var record := RecordOf(batch.tp, batch.messages[0], env.loads);
    assert RecordsOf(batch, env.loads) == [record];
    var verdict := ToRow(record.value, c, env.parse, now, ingestedAt);
    var reason := if verdict.Mapped? then InsertFailed else Unmappable;
    var letter := LetterOf(Dead(record, reason), c.pipelineId, TableOf(c));
    LetterAlone(record, verdict, c, env.accepts);
    w := Writing(Returned(WriteResult(0, 1, [reason])), [], [letter], [verdict], [(now, ingestedAt)]);
    t := Apply(s, InsertDeadLetters([letter]));
    assert Judged([record], [verdict], [(now, ingestedAt)], c, env.parse, now);
    hide Settled, SettledExactly, SettledByRow, LettersFrom, OnlyTheirs, Judged, TableOf;
    assert Grew(s, t, TableOf(c), [], [letter]);
    assert Wrote(c, [record], s, t, w, env.parse, now, env.mode, env.accepts);
  }

  /** A message that is judged can be written, one way or the other. */
  lemma WritesOne(env: Setting, c: PipelineConfig, batch: Batch, s: Store, now: real, ingestedAt: real)
      returns (w: Writing, t: Store)
    requires |batch.messages| == 1 && Judges(env, c, batch.messages[0].raw, now, ingestedAt)
    requires Identifies(c).Some?
    ensures w.outcome.Returned? && SomeTimeWrote(env, c, batch, s, t, w)
  {
    hide ToRow, Identifies, SomeTimeWrote;
    var raw := batch.messages[0].raw;
    var verdict := ToRow(ValueOf(raw, env.loads), c, env.parse, now, ingestedAt);
    if verdict.Mapped? && ClickHouse.Accepted(env.accepts, verdict.row) {
      TextIsRejected(raw, c, env.parse, now, ingestedAt);
      var row;
      w, row := InsertsOneRow(env, c, batch, s, now, ingestedAt);
      t := Apply(s, Insert(TableOf(c), [row]));
    } else {
      w, t := WritesOneLetter(env, c, batch, s, now, ingestedAt);
    }
  }

  /** A server that is not known to be reachable may fail before anything is inserted. */
  lemma FailsWithNothing(env: Setting, c: PipelineConfig, batch: Batch, s: Store) returns (w: Writing)
    requires Identifies(c).Some? && !env.mode.ByRow?
    ensures w.outcome.Raised? && SomeTimeWrote(env, c, batch, s, s, w)
  {
    w := Writing(Raised(ServerError), [], [], [], []);
    WroteNothing(c, RecordsOf(batch, env.loads), s, s, ServerError, [], [], env.parse, 0.0, env.mode, env.accepts);
  }

  // ---------------------------------------------------------------- a run that loses a record

  /** The record is below the committed offset, not expired, and nowhere in the store. */
  ghost predicate LostFromStore(s: System, tp: Partition, o: nat) {
    && tp in s.group.committed && Get(s.group.starts, tp) <= o < s.group.committed[tp]
    && !InOwnTable(s.store, s.ever, tp, o) && !InDeadLetters(s.store, tp, o)
  }

  /** This run loses it. */
  ghost predicate Loses(env: Setting, steps: seq<Step>, tp: Partition, o: nat) {
    SystemRun(env, START, steps, false) && LostFromStore(SystemExec(env, START, steps), tp, o)
  }

  ghost predicate HasFate(steps: seq<Step>, fate: Fate) {
    exists i :: 0 <= i < |steps| && steps[i].HandleEntry? && steps[i].h.fate == fate
  }

  lemma FatesAdd(first: seq<Step>, second: seq<Step>, fate: Fate)
    requires HasFate(first, fate) || HasFate(second, fate)
    ensures HasFate(first + second, fate)
  {
    if HasFate(first, fate) {
      var i :| 0 <= i < |first| && first[i].HandleEntry? && first[i].h.fate == fate;
      assert (first + second)[i] == first[i];
    } else {
      var i :| 0 <= i < |second| && second[i].HandleEntry? && second[i].h.fate == fate;
      assert (first + second)[|first| + i] == second[i];
    }
  }

  /** Why a first message may be left behind: there was no config for it yet, or the write
      failed. */
  lemma LeaveOne(env: Setting, s: System, tp: Partition, c: PipelineConfig, fate: Fate) returns (steps: seq<Step>)
    requires Ready(s, tp, 0) && 0 < s.group.ends[tp] && s.caches[0] == map[]
    requires
      || (fate.Failed? && !env.mode.ByRow? && Resolve(map[], s.configs, tp.topic) == Some(c) && Identifies(c).Some?)
      || (fate.Unconfigured? && s.configs == map[])
    ensures SystemRun(env, s, steps, false) && HasFate(steps, fate)
    ensures
      var t := SystemExec(env, s, steps);
      && Ready(t, tp, 1)
      && t.store == s.store && t.caches[0] == (if fate.Failed? then map[tp.topic := c] else map[])
      && t.configs == s.configs && t.ever == s.ever
      && t.group.ends == s.group.ends && t.group.starts == s.group.starts && t.group.committed == s.group.committed
  {
    assert 0 in s.caches;
    hide Ready, Identifies, SomeTimeWrote;
    var before := Moment(s.store, map[]);
    var h := Handling(Unconfigured, None, before, before);
    if fate.Failed? {
      var w := FailsWithNothing(env, c, OneMessage(tp, 0, ""), s.store);
      h := Handling(Fate.Failed, Some(w), before, Moment(s.store, map[tp.topic := c]));
    }
    steps := HandleOne(env, s, tp, 0, "", h);
    var i :| 0 <= i < |steps| && steps[i] == Step.HandleEntry(0, h);
    assert steps[i].h.fate == fate;
  }

  /** A member that has left record 0 behind, with the config at hand. */
  ghost predicate LeftBehind(t: System, tp: Partition, c: PipelineConfig) {
    && Ready(t, tp, 1)
    && t.store == START.store && t.ever == {c}
    && Resolve(t.caches[0], t.configs, tp.topic) == Some(c)
    && t.group.ends == map[tp := 2] && t.group.committed == map[]
  }

  lemma FailedFirst(env: Setting, tp: Partition, c: PipelineConfig) returns (steps: seq<Step>)
    requires Owns(c, tp.topic) && !env.mode.ByRow?
    ensures SystemRun(env, START, steps, false) && LeftBehind(SystemExec(env, START, steps), tp, c)
    ensures HasFate(steps, Fate.Failed)
  {
    hide PoolSystem.Inv, Identifies, SystemNext, CanStep, HasFate;
    var first := TwoRecordsReady(env, tp);
    RegisterReady(env, SystemExec(env, START, first), tp, 0, c);
    first := RunThen(env, first, [Register(c)]);
    var leave := LeaveOne(env, SystemExec(env, START, first), tp, c, Fate.Failed);
    steps := RunThen(env, first, leave);
    FatesAdd(first, leave, Fate.Failed);
  }

  lemma UnconfiguredFirst(env: Setting, tp: Partition, c: PipelineConfig) returns (steps: seq<Step>)
    requires Owns(c, tp.topic)
    ensures SystemRun(env, START, steps, false) && LeftBehind(SystemExec(env, START, steps), tp, c)
    ensures HasFate(steps, Unconfigured)
  {
    hide PoolSystem.Inv, Identifies, SystemNext, CanStep, HasFate;
    var first := TwoRecordsReady(env, tp);
    var leave := LeaveOne(env, SystemExec(env, START, first), tp, c, Unconfigured);
    FatesAdd(first, leave, Unconfigured);
    first := RunThen(env, first, leave);
    RegisterReady(env, SystemExec(env, START, first), tp, 1, c);
    steps := RunThen(env, first, [Register(c)]);
    FatesAdd(first, [Register(c)], Unconfigured);
  }

  /** All that is in the store is of this one record. */
  ghost predicate OnlyOf(t: Store, coord: Coord) {
    && (forall table, c :: c in Origins(RowsIn(t, table)) ==> c == coord)
    && (forall c :: c in LetterOrigins(t.dlq) ==> c == coord)
  }

  lemma WrittenOnly(env: Setting, c: PipelineConfig, batch: Batch, t: Store, w: Writing)
    requires |batch.messages| == 1 && SomeTimeWrote(env, c, batch, START.store, t, w)
    ensures OnlyOf(t, CoordOf(batch.tp, batch.messages[0].offset))
  {
    hide Judged, RowsFrom, LettersFrom, Settled, SettledExactly, SettledByRow;
    var coord := CoordOf(batch.tp, batch.messages[0].offset);
    assert Coords(RecordsOf(batch, env.loads)) == [coord];
    assert [] + w.rows == w.rows && [] + w.letters == w.letters;
    assert Origins([]) == [];
  }

  lemma OthersAreNowhere(t: Store, coord: Coord, ever: set<PipelineConfig>, tp: Partition, o: nat)
    requires OnlyOf(t, coord) && coord != CoordOf(tp, o)
    ensures !InOwnTable(t, ever, tp, o) && !InDeadLetters(t, tp, o)
  {
    hide Origins, LetterOrigins;
  }

  lemma WrittenEntryOf(env: Setting, configs: map<string, PipelineConfig>, tp: Partition, k: nat, c: PipelineConfig,
                       cache: map<Topic, PipelineConfig>)
      returns (raw: string, h: Handling)
    requires Resolve(cache, configs, tp.topic) == Some(c) && Identifies(c).Some? && Writable(env, c)
    ensures h.before == Moment(START.store, cache) && h.fate.Written? && OnlyOf(h.after.store, CoordOf(tp, k))
    ensures EntryDone(env, true, configs, OneMessage(tp, k, raw), h)
  {
    hide Identifies, SomeTimeWrote, Resolve, OnlyOf, CoordOf;
    var now: real, ingestedAt: real;
    raw, now, ingestedAt :| Judges(env, c, raw, now, ingestedAt);
    var w, t := WritesOne(env, c, OneMessage(tp, k, raw), START.store, now, ingestedAt);
    WrittenOnly(env, c, OneMessage(tp, k, raw), t, w);
    h := Handling(Written, Some(w), Moment(START.store, cache), Moment(t, cache[tp.topic := c]));
  }

  lemma SecondWritten(env: Setting, s: System, tp: Partition, c: PipelineConfig) returns (steps: seq<Step>)
    requires LeftBehind(s, tp, c) && Owns(c, tp.topic) && Writable(env, c)
    ensures SystemRun(env, s, steps, false) && LostFromStore(SystemExec(env, s, steps), tp, 0)
  {
    assert 0 in s.caches && CoordOf(tp, 1) != CoordOf(tp, 0);
    hide PoolSystem.Inv, Writable, Identifies, Resolve, EntryDone, OnlyOf, InOwnTable, InDeadLetters, CoordOf,
         SystemNext, CanStep;
    var raw, h := WrittenEntryOf(env, s.configs, tp, 1, c, s.caches[0]);
    steps := HandleOne(env, s, tp, 1, raw, h);
    OthersAreNowhere(h.after.store, CoordOf(tp, 1), s.ever, tp, 0);
  }

  /** "re-read when it's back" does not hold of the running member, whatever the topic: once
      its config can have a message written, there is a run of the whole system that commits
      past a retained record which is in no table and not dead-lettered.  The record's config
      may have come late, or its write may have failed. */
  lemma RecordIsLost(env: Setting, tp: Partition, c: PipelineConfig, fate: Fate) returns (steps: seq<Step>)
    requires Owns(c, tp.topic) && Writable(env, c)
    requires fate.Unconfigured? || (fate.Failed? && !env.mode.ByRow?)
    ensures Loses(env, steps, tp, 0) && HasFate(steps, fate)
  {
    hide LeftBehind, Writable, Owns, LostFromStore, HasFate, SystemNext, CanStep;
    var first;
    if fate.Failed? {
      first := FailedFirst(env, tp, c);
    } else {
      first := UnconfiguredFirst(env, tp, c);
    }
    var second := SecondWritten(env, SystemExec(env, START, first), tp, c);
    steps := RunThen(env, first, second);
    FatesAdd(first, second, fate);
  }

  // ---------------------------------------------------------------- nothing else is lost

  /** A config of the topic under which something can be written. */
  ghost predicate CanWrite(env: Setting, c: PipelineConfig, topic: Topic) {
    Owns(c, topic) && Writable(env, c)
  }

  ghost predicate Committable(env: Setting, ever: set<PipelineConfig>, topic: Topic) {
    exists c :: c in ever && CanWrite(env, c, topic)
  }

  ghost predicate WorkWritable(env: Setting, ever: set<PipelineConfig>, w: Work) {
    && |w.fates| <= |w.batches|
    && forall i :: 0 <= i < |w.fates| && w.fates[i].Written? ==> Committable(env, ever, w.batches[i].tp.topic)
  }

  /** Only what can be written is committed. */
  ghost predicate OnlyWritable(env: Setting, s: System) {
    && (forall tp :: tp in s.group.committed ==> Committable(env, s.ever, tp.topic))
    && (forall m :: m in s.work ==> WorkWritable(env, s.ever, s.work[m]))
  }

  lemma ReturnsWritable(env: Setting, c: PipelineConfig, batch: Batch, s: Store, t: Store, w: Writing)
    requires SomeTimeWrote(env, c, batch, s, t, w) && w.outcome.Returned? && batch.messages != []
    ensures Writable(env, c) && Identifies(c).Some?
  {
    hide Grew, OnlyTheirs, RowsFrom, LettersFrom, SettledExactly, SettledByRow, Complete, ToRow;
    var now: real :| Wrote(c, RecordsOf(batch, env.loads), s, t, w, env.parse, now, env.mode, env.accepts);
    assert !w.verdicts[0].Overflowed?;
    assert Judges(env, c, batch.messages[0].raw, w.times[0].0, w.times[0].1);
  }

  lemma WrittenCommittable(env: Setting, s: System, m: MemberId, h: Handling)
    requires PoolSystem.Inv(s) && CanStep(env, s, Step.HandleEntry(m, h)) && h.fate.Written?
    ensures Committable(env, s.ever, Current(s, m).tp.topic)
  {
    hide SomeTimeWrote, CacheFits, Backed, Filed, Writable, Identifies;
    var (batch, me) := (Current(s, m), s.group.members[m]);
    assert MemberFits(s, m);
    EntryLeaves(env, batch.tp in me.assignment, s.configs, batch, h);
    LookupFits(s.caches[m], h.after.cache, s.configs, s.ever);
    CacheOwns(h.after.cache, s.ever, batch.tp.topic);
    var c := h.after.cache[batch.tp.topic];
    ReturnsWritable(env, c, batch, h.before.store, h.after.store, h.writing.value);
    assert CanWrite(env, c, batch.tp.topic);
  }

  lemma CommittableByMore(env: Setting, ever: set<PipelineConfig>, more: set<PipelineConfig>, topic: Topic)
    requires Committable(env, ever, topic) && ever <= more
    ensures Committable(env, more, topic)
  {
    hide CanWrite;
  }

  lemma OutsideOnlyWritable(env: Setting, s: System, e: Event)
    requires OnlyWritable(env, s) && CanStep(env, s, Outside(e))
    ensures OnlyWritable(env, SystemNext(env, s, Outside(e)))
  {
    hide Committable, WorkWritable;
    assert Next(s.group, e).committed == s.group.committed;
  }

  lemma RegisterOnlyWritable(env: Setting, s: System, config: PipelineConfig)
    requires OnlyWritable(env, s)
    ensures OnlyWritable(env, SystemNext(env, s, Register(config)))
  {
    hide Committable;
    var t := SystemNext(env, s, Register(config));
    forall topic | Committable(env, s.ever, topic) ensures Committable(env, t.ever, topic) {
      CommittableByMore(env, s.ever, t.ever, topic);
    }
  }

  lemma UnregisterOnlyWritable(env: Setting, s: System, id: string)
    requires OnlyWritable(env, s)
    ensures OnlyWritable(env, SystemNext(env, s, Unregister(id)))
  {
    hide Committable, WorkWritable;
  }

  lemma BeginOnlyWritable(env: Setting, s: System, m: MemberId, batches: seq<Batch>)
    requires OnlyWritable(env, s) && CanStep(env, s, BeginBatch(m, batches))
    ensures OnlyWritable(env, SystemNext(env, s, BeginBatch(m, batches)))
  {
    hide Committable;
  }

  /** One more fate. */
  lemma WorkGrows(env: Setting, ever: set<PipelineConfig>, w: Work, fate: Fate)
    requires WorkWritable(env, ever, w) && |w.fates| < |w.batches|
    requires fate.Written? ==> Committable(env, ever, w.batches[|w.fates|].tp.topic)
    ensures WorkWritable(env, ever, w.(fates := w.fates + [fate]))
  {
    hide Committable;
  }

  lemma EntryOnlyWritable(env: Setting, s: System, m: MemberId, h: Handling)
    requires PoolSystem.Inv(s) && OnlyWritable(env, s) && CanStep(env, s, Step.HandleEntry(m, h))
    ensures OnlyWritable(env, SystemNext(env, s, Step.HandleEntry(m, h)))
  {
    hide PoolSystem.Inv, EntryDone, After, EventOf, OnlyMember, WorkWritable, Committable;
    if h.fate.Written? {
      WrittenCommittable(env, s, m, h);
    }
    WorkGrows(env, s.ever, s.work[m], h.fate);
    EntryIsEvent(env, s, m, h);
    assert SystemNext(env, s, Step.HandleEntry(m, h)).group.committed == s.group.committed;
  }

  lemma CommitOnlyWritable(env: Setting, s: System, m: MemberId, accepted: bool)
    requires OnlyWritable(env, s) && CanStep(env, s, CommitBatch(m, accepted))
    ensures OnlyWritable(env, SystemNext(env, s, CommitBatch(m, accepted)))
  {
    hide Committable;
    var w := s.work[m];
    forall tp | tp in Offsets(w) ensures Committable(env, s.ever, tp.topic) {
      OffsetsExactly(w.batches, w.fates, tp);
      assert WorkWritable(env, s.ever, w);
    }
  }

  lemma StepOnlyWritable(env: Setting, s: System, step: Step)
    requires PoolSystem.Inv(s) && OnlyWritable(env, s) && CanStep(env, s, step)
    ensures OnlyWritable(env, SystemNext(env, s, step))
  {
    hide PoolSystem.Inv, OnlyWritable, CanStep, SystemNext;
    match step
    case Outside(e) => OutsideOnlyWritable(env, s, e);
    case Register(config) => RegisterOnlyWritable(env, s, config);
    case Unregister(id) => UnregisterOnlyWritable(env, s, id);
    case BeginBatch(m, batches) => BeginOnlyWritable(env, s, m, batches);
    case HandleEntry(m, h) => EntryOnlyWritable(env, s, m, h);
    case CommitBatch(m, accepted) => CommitOnlyWritable(env, s, m, accepted);
  }

  lemma {:induction false} RunOnlyWritable(env: Setting, s: System, steps: seq<Step>)
    requires PoolSystem.Inv(s) && OnlyWritable(env, s) && SystemRun(env, s, steps, false)
    ensures OnlyWritable(env, SystemExec(env, s, steps))
    decreases |steps|
  {
    hide PoolSystem.Inv, OnlyWritable, CanStep, SystemNext, NoGap;
    if steps != [] {
      StepIsEvents(env, s, steps[0], false);
      StepOnlyWritable(env, s, steps[0]);
      RunOnlyWritable(env, SystemNext(env, s, steps[0]), steps[1..]);
    }
  }

  /** Some run loses a record of the partition. */
  ghost predicate CanLose(env: Setting, tp: Partition) {
    exists steps: seq<Step>, o: nat :: Loses(env, steps, tp, o)
  }

  /** Without the discipline, "what is committed is in its table or dead-lettered" fails for
      every partition of which anything can ever be committed: some run loses a record of it
      exactly if the topic names a pipeline with a table, and some message can be written
      under it at all. */
  lemma LossExactly(env: Setting, tp: Partition)
    ensures CanLose(env, tp) <==> exists c :: CanWrite(env, c, tp.topic)
  {
    hide CanStep, SystemNext, CanWrite, InOwnTable, InDeadLetters;
    if CanLose(env, tp) {
      var steps: seq<Step>, o: nat :| Loses(env, steps, tp, o);
      StartInv();
      RunOnlyWritable(env, START, steps);
      assert Committable(env, SystemExec(env, START, steps).ever, tp.topic);
    }
    if c :| CanWrite(env, c, tp.topic) {
      CanWriteLoses(env, tp, c);
    }
  }

  lemma CanWriteLoses(env: Setting, tp: Partition, c: PipelineConfig)
    requires CanWrite(env, c, tp.topic)
    ensures CanLose(env, tp)
  {
    hide Loses, Owns, Writable;
    var steps := RecordIsLost(env, tp, c, Unconfigured);
  }
}

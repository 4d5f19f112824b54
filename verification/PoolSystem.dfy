/** The whole pool: any number of members run the code of module Pool against one store and
    one repository, while Kafka, the task manager and each other go on.  Every run of this
    system is a run of the delivery protocol, and what the protocol counts as written is in
    the store, in the record's own table. */
module PoolSystem {
  import opened Wrappers
  import opened Models
  import opened Routing
  import opened ClickHouse
  import opened Sink
  import opened Delivery
  import opened DeliverySafety
  import opened Pool
  import DrainAndDelete

  /** Where a member is in its batch: the entries that getmany returned, and the fates of
      those handled so far. */
  datatype Work = Work(batches: seq<Batch>, fates: seq<Fate>)

  /** `configs` is what the repository holds now, `ever` all it has ever held. */
  datatype System = System(
    group: Group,
    store: Store,
    configs: map<string, PipelineConfig>,
    ever: set<PipelineConfig>,
    caches: map<MemberId, map<Topic, PipelineConfig>>,
    work: map<MemberId, Work>)

  const START := System(INITIAL, Store(map[], []), map[], {}, map[], map[])

  /** Outside: whatever the protocol has beside the handling of batches.  The other steps
      are the task manager's, and the code's of one member. */
  datatype Step =
    | Outside(e: Event)
    | Register(config: PipelineConfig)
    | Unregister(id: string)
    | BeginBatch(m: MemberId, batches: seq<Batch>)
    | HandleEntry(m: MemberId, h: Handling)
    | CommitBatch(m: MemberId, accepted: bool)

  // ---------------------------------------------------------------- batches and ranges

  /** getmany returns contiguous messages. */
  ghost predicate Contiguous(batch: Batch) {
    && batch.messages != []
    && forall i :: 0 <= i < |batch.messages| ==> batch.messages[i].offset == batch.messages[0].offset + i
  }

  /** The range of offsets that a fetched entry covers. */
  function RangeOf(batch: Batch): Range
    requires batch.messages != []
  {
    Range(batch.tp, batch.messages[0].offset, EndOf(batch))
  }

  function RangesOf(batches: seq<Batch>): seq<Range>
    requires forall i :: 0 <= i < |batches| ==> batches[i].messages != []
  {
    seq(|batches|, i requires 0 <= i < |batches| => RangeOf(batches[i]))
  }

  ghost predicate Fetched(batches: seq<Batch>) {
    WellFormed(batches) && forall i :: 0 <= i < |batches| ==> Contiguous(batches[i])
  }

  /** Where the store has messages of the entry: in the table, and in the dead letters. */
  datatype Placed = Placed(toTable: set<nat>, toDlq: set<nat>)

  ghost function PlacesOf(batch: Batch, t: Store, table: Option<string>): Placed {
    Placed(set m | m in batch.messages && table.Some?
           && CoordOf(batch.tp, m.offset) in Origins(RowsIn(t, table.value)) :: m.offset,
           set m | m in batch.messages && CoordOf(batch.tp, m.offset) in LetterOrigins(t.dlq) :: m.offset)
  }

  ghost function Placing(batch: Batch, after: Moment): Placed {
    PlacesOf(batch, after.store,
             if batch.tp.topic in after.cache then Identifies(after.cache[batch.tp.topic]) else None)
  }

  /** What the handling of an entry is in the protocol. */
  ghost function EventOf(m: MemberId, batch: Batch, h: Handling): Event {
    match h.fate
    case NotMine => PassOver(m)
    case Unconfigured => NoConfig(m)
    case Written => Write(m, Placing(batch, h.after).toTable, Placing(batch, h.after).toDlq)
    case Failed => WriteFails(m, Placing(batch, h.after).toTable, Placing(batch, h.after).toDlq)
  }

  // ---------------------------------------------------------------- steps

  predicate IsOutside(e: Event) {
    !(e.Begin? || e.PassOver? || e.NoConfig? || e.Write? || e.WriteFails? || e.Commit?)
  }

  /** The loop goes on with this entry. */
  ghost predicate Busy(s: System, m: MemberId) {
    && m in s.work && m in s.group.members && m in s.caches && s.group.members[m].locked
    && |s.work[m].fates| < |s.work[m].batches|
    && (s.work[m].fates != [] ==> !s.work[m].fates[|s.work[m].fates| - 1].Failed?)
  }

  ghost function Current(s: System, m: MemberId): Batch
    requires Busy(s, m)
  {
    s.work[m].batches[|s.work[m].fates|]
  }

  /** The loop is over. */
  ghost predicate Done(s: System, m: MemberId) {
    && m in s.work && m in s.group.members && s.group.members[m].locked
    && (|s.work[m].fates| == |s.work[m].batches|
        || (s.work[m].fates != [] && s.work[m].fates[|s.work[m].fates| - 1].Failed?))
  }

  /** The offsets that the member's code has gathered. */
  ghost function Offsets(w: Work): map<Partition, nat>
    requires WellFormed(w.batches) && |w.fates| <= |w.batches|
  {
    OffsetsOf(w.batches, w.fates)
  }

  ghost predicate CanStep(env: Setting, s: System, step: Step) {
    match step
    case Outside(e) => IsOutside(e) && Enabled(s.group, e)
    case Register(_) => true
    case Unregister(_) => true
    case BeginBatch(m, batches) =>
      Enabled(s.group, Begin(m)) && Fetched(batches) && s.group.members[m].hand == RangesOf(batches)
    case HandleEntry(m, h) =>
      && Busy(s, m)
      && h.before == Moment(s.store, s.caches[m])
      && EntryDone(env, Current(s, m).tp in s.group.members[m].assignment, s.configs, Current(s, m), h)
    case CommitBatch(m, accepted) =>
      && Done(s, m) && WellFormed(s.work[m].batches) && |s.work[m].fates| <= |s.work[m].batches|
      && (accepted ==> Offsets(s.work[m]).Keys <= OwnedBy(s.group.owner, m))
  }

  /** The step's trace in the protocol. */
  ghost function EventsOf(env: Setting, s: System, step: Step): seq<Event>
    requires CanStep(env, s, step)
  {
    match step
    case Outside(e) => [e]
    case Register(_) => []
    case Unregister(_) => []
    case BeginBatch(m, _) => [Begin(m)]
    case HandleEntry(m, h) => [EventOf(m, Current(s, m), h)]
    case CommitBatch(m, accepted) => [Commit(m, accepted)]
  }

  /** Batches are the code's to describe: what was committed is what its offsets dict says. */
  ghost function Committed(s: System, m: MemberId, accepted: bool): Group
    requires Done(s, m) && WellFormed(s.work[m].batches) && |s.work[m].fates| <= |s.work[m].batches|
  {
    s.group.(
      members := s.group.members[m := s.group.members[m].(locked := false, offsets := map[])],
      committed := if accepted then s.group.committed + Offsets(s.work[m]) else s.group.committed)
  }

  /** The handled entry's event, if the protocol allows it. */
  ghost function After(g: Group, e: Event): Group {
    if Enabled(g, e) then Next(g, e) else g
  }

  ghost function SystemNext(env: Setting, s: System, step: Step): System
    requires CanStep(env, s, step)
  {
    match step
    case Outside(e) =>
      var s' := s.(group := Next(s.group, e));
      (match e
       case Join(m) => s'.(caches := s.caches[m := map[]], work := s.work - {m})
       case Crash(m) => s'.(caches := s.caches - {m}, work := s.work - {m})
       case _ => s')
    case Register(config) => s.(configs := s.configs[config.pipelineId := config], ever := s.ever + {config})
    case Unregister(id) => s.(configs := s.configs - {id})
    case BeginBatch(m, batches) =>
      s.(group := Next(s.group, Begin(m)), work := s.work[m := Work(batches, [])])
    case HandleEntry(m, h) =>
      s.(group := After(s.group, EventOf(m, Current(s, m), h)),
         store := h.after.store,
         caches := s.caches[m := h.after.cache],
         work := s.work[m := s.work[m].(fates := s.work[m].fates + [h.fate])])
    case CommitBatch(m, accepted) => s.(group := Committed(s, m, accepted), work := s.work - {m})
  }

  /** A run; `disciplined` as for the protocol. */
  ghost predicate SystemRun(env: Setting, s: System, steps: seq<Step>, disciplined: bool): (r: bool)
    ensures r && disciplined ==> SystemRun(env, s, steps, false)
    decreases |steps|, disciplined
  {
    steps != [] ==>
      && CanStep(env, s, steps[0])
      && (disciplined ==> NoGap(s, steps[0]))
      && SystemRun(env, SystemNext(env, s, steps[0]), steps[1..], disciplined)
  }

  ghost predicate NoGap(s: System, step: Step) {
    step.Outside? ==> NoGapFetched(s.group, step.e)
  }

  ghost function SystemExec(env: Setting, s: System, steps: seq<Step>): System
    requires SystemRun(env, s, steps, false)
    decreases |steps|
  {
    if steps == [] then s else SystemExec(env, SystemNext(env, s, steps[0]), steps[1..])
  }

  // ---------------------------------------------------------------- whose table

  /** The config of a pipeline that owns the topic, and has a table. */
  ghost predicate Owns(c: PipelineConfig, topic: Topic) {
    TopicPipelineId(topic) == Some(c.pipelineId) && Identifies(c).Some?
  }

  /** The record is in the table of a pipeline that owns its topic. */
  ghost predicate InOwnTable(t: Store, ever: set<PipelineConfig>, tp: Partition, o: nat) {
    exists c :: c in ever && Owns(c, tp.topic) && CoordOf(tp, o) in Origins(RowsIn(t, TableOf(c)))
  }

  ghost predicate InDeadLetters(t: Store, tp: Partition, o: nat) {
    CoordOf(tp, o) in LetterOrigins(t.dlq)
  }

  /** What the protocol counts as written is in the store, where it belongs. */
  ghost predicate Backed(g: Group, t: Store, ever: set<PipelineConfig>) {
    && (forall r :: r in g.tabled ==> InOwnTable(t, ever, r.tp, r.offset))
    && (forall r :: r in g.dlq ==> InDeadLetters(t, r.tp, r.offset))
  }

  /** The stored configs are filed under their ids, and all of them are remembered. */
  ghost predicate Filed(configs: map<string, PipelineConfig>, ever: set<PipelineConfig>) {
    forall id :: id in configs ==> configs[id].pipelineId == id && configs[id] in ever
  }

  /** Cached configs are of pipelines that own their topics. */
  ghost predicate CacheFits(cache: map<Topic, PipelineConfig>, ever: set<PipelineConfig>) {
    forall topic :: topic in cache ==> TopicPipelineId(topic) == Some(cache[topic].pipelineId) && cache[topic] in ever
  }

  lemma LookupFits(cache: map<Topic, PipelineConfig>, later: map<Topic, PipelineConfig>,
                   configs: map<string, PipelineConfig>, ever: set<PipelineConfig>)
    requires CacheFits(cache, ever) && Filed(configs, ever) && LookedUp(cache, later, configs)
    ensures CacheFits(later, ever)
  {
  }

  lemma StoredLater(t: Store, u: Store, ever: set<PipelineConfig>, more: set<PipelineConfig>, tp: Partition, o: nat)
    requires Extends(t, u) && ever <= more
    ensures InOwnTable(t, ever, tp, o) ==> InOwnTable(u, more, tp, o)
    ensures InDeadLetters(t, tp, o) ==> InDeadLetters(u, tp, o)
  {
    if InOwnTable(t, ever, tp, o) {
      var c :| c in ever && Owns(c, tp.topic) && CoordOf(tp, o) in Origins(RowsIn(t, TableOf(c)));
      var i :| 0 <= i < |RowsIn(t, TableOf(c))| && Origins(RowsIn(t, TableOf(c)))[i] == CoordOf(tp, o);
      assert Origins(RowsIn(u, TableOf(c)))[i] == CoordOf(tp, o);
    }
    if InDeadLetters(t, tp, o) {
      var i :| 0 <= i < |t.dlq| && LetterOrigins(t.dlq)[i] == CoordOf(tp, o);
      assert LetterOrigins(u.dlq)[i] == CoordOf(tp, o);
    }
  }

  lemma BackedLater(g: Group, t: Store, u: Store, ever: set<PipelineConfig>, more: set<PipelineConfig>)
    requires Backed(g, t, ever) && Extends(t, u) && ever <= more
    ensures Backed(g, u, more)
  {
    hide InOwnTable, InDeadLetters;
    forall r | r in g.tabled ensures InOwnTable(u, more, r.tp, r.offset) {
      StoredLater(t, u, ever, more, r.tp, r.offset);
    }
    forall r | r in g.dlq ensures InDeadLetters(u, r.tp, r.offset) {
      StoredLater(t, u, ever, more, r.tp, r.offset);
    }
  }

  // ---------------------------------------------------------------- entries are events

  ghost predicate Within(range: Range, placed: Placed) {
    forall o: nat :: o in placed.toTable + placed.toDlq ==> Covers(range, range.tp, o)
  }

  ghost predicate Fills(range: Range, placed: Placed) {
    forall o: nat :: o in placed.toTable + placed.toDlq <==> Covers(range, range.tp, o)
  }

  /** A kept entry's places are its whole range; any entry's lie within it. */
  lemma PlacesFit(batch: Batch, t: Store, table: Option<string>)
    requires Contiguous(batch)
    ensures Within(RangeOf(batch), PlacesOf(batch, t, table))
    ensures table.Some? && AllKept(t, table.value, batch) ==> Fills(RangeOf(batch), PlacesOf(batch, t, table))
  {
    var range, placed := RangeOf(batch), PlacesOf(batch, t, table);
    forall o: nat | o in placed.toTable + placed.toDlq ensures Covers(range, range.tp, o) {
      var i :| 0 <= i < |batch.messages| && batch.messages[i].offset == o;
    }
    if table.Some? && AllKept(t, table.value, batch) {
      forall o: nat | Covers(range, range.tp, o) ensures o in placed.toTable + placed.toDlq {
        var m := batch.messages[o - range.lo];
        assert m in batch.messages && m.offset == o;
        assert Kept(t, table.value, CoordOf(batch.tp, m.offset));
      }
    }
  }

  /** The entry's messages that are in the store are in their own table. */
  lemma PlacesOwn(batch: Batch, t: Store, c: PipelineConfig, ever: set<PipelineConfig>)
    requires c in ever && TopicPipelineId(batch.tp.topic) == Some(c.pipelineId)
    ensures forall o :: o in PlacesOf(batch, t, Identifies(c)).toTable ==> InOwnTable(t, ever, batch.tp, o)
    ensures forall o :: o in PlacesOf(batch, t, Identifies(c)).toDlq ==> InDeadLetters(t, batch.tp, o)
  {
    forall o | o in PlacesOf(batch, t, Identifies(c)).toTable ensures InOwnTable(t, ever, batch.tp, o) {
      assert Owns(c, batch.tp.topic) && CoordOf(batch.tp, o) in Origins(RowsIn(t, TableOf(c)));
    }
  }

  /** What is left of the batch. */
  function LeftOver(w: Work): seq<Range>
    requires |w.fates| <= |w.batches| && forall i :: 0 <= i < |w.batches| ==> w.batches[i].messages != []
  {
    if w.fates != [] && w.fates[|w.fates| - 1].Failed? then [] else RangesOf(w.batches)[|w.fates|..]
  }

  /** The protocol's view of a member inside the lock is that of its code. */
  ghost predicate WorkFits(me: Member, w: Work) {
    && Fetched(w.batches) && |w.fates| <= |w.batches|
    && me.hand == LeftOver(w)
    && me.offsets == Offsets(w)
  }

  ghost predicate MemberFits(s: System, m: MemberId)
    requires m in s.group.members
  {
    && m in s.caches && CacheFits(s.caches[m], s.ever)
    && (s.group.members[m].locked ==> m in s.work && WorkFits(s.group.members[m], s.work[m]))
  }

  ghost predicate Inv(s: System) {
    && (forall m :: m in s.group.members ==> MemberFits(s, m))
    && Filed(s.configs, s.ever)
    && Backed(s.group, s.store, s.ever)
  }

  /** Outside events write nothing, and leave members inside the lock alone. */
  lemma OutsideLeaves(g: Group, e: Event, m: MemberId)
    requires IsOutside(e) && Enabled(g, e)
    ensures Next(g, e).tabled == g.tabled && Next(g, e).dlq == g.dlq
    ensures m in Next(g, e).members && Next(g, e).members[m].locked ==>
      m in g.members && Next(g, e).members[m] == g.members[m]
    ensures m in Next(g, e).members ==> e != Crash(m) && (m in g.members <==> e != Join(m))
  {
  }

  lemma OutsideInv(env: Setting, s: System, e: Event)
    requires Inv(s) && CanStep(env, s, Outside(e))
    ensures Inv(SystemNext(env, s, Outside(e)))
  {
    hide WorkFits, CacheFits, InOwnTable, InDeadLetters, Filed, Next, Enabled;
    var t := SystemNext(env, s, Outside(e));
    OutsideLeaves(s.group, e, 0);
    forall m | m in t.group.members ensures MemberFits(t, m) {
      OutsideLeaves(s.group, e, m);
      if e == Join(m) {
        EmptyCacheFits(s.ever);
      } else {
        assert MemberFits(s, m);
      }
    }
  }

  lemma EmptyCacheFits(ever: set<PipelineConfig>)
    ensures CacheFits(map[], ever)
  {
  }

  lemma RegisterInv(env: Setting, s: System, config: PipelineConfig)
    requires Inv(s)
    ensures Inv(SystemNext(env, s, Register(config)))
  {
    var t := SystemNext(env, s, Register(config));
    forall m | m in t.group.members ensures MemberFits(t, m) {
      assert MemberFits(s, m);
    }
    BackedLater(s.group, s.store, s.store, s.ever, t.ever);
  }

  lemma UnregisterInv(env: Setting, s: System, id: string)
    requires Inv(s)
    ensures Inv(SystemNext(env, s, Unregister(id)))
  {
    var t := SystemNext(env, s, Unregister(id));
    forall m | m in t.group.members ensures MemberFits(t, m) {
      assert MemberFits(s, m);
    }
  }

  lemma BeginInv(env: Setting, s: System, m: MemberId, batches: seq<Batch>)
    requires Inv(s) && CanStep(env, s, BeginBatch(m, batches))
    ensures Inv(SystemNext(env, s, BeginBatch(m, batches)))
  {
    hide CacheFits, InOwnTable, InDeadLetters, Filed;
    var t := SystemNext(env, s, BeginBatch(m, batches));
    forall n | n in t.group.members ensures MemberFits(t, n) {
      assert MemberFits(s, n);
    }
    assert RangesOf(batches)[0..] == RangesOf(batches);
  }

  lemma CommitIsEvent(env: Setting, s: System, m: MemberId, accepted: bool)
    requires Inv(s) && CanStep(env, s, CommitBatch(m, accepted))
    ensures Enabled(s.group, Commit(m, accepted))
    ensures SystemNext(env, s, CommitBatch(m, accepted)).group == Next(s.group, Commit(m, accepted))
    ensures Inv(SystemNext(env, s, CommitBatch(m, accepted)))
  {
    hide CacheFits, InOwnTable, InDeadLetters, Filed;
    var t := SystemNext(env, s, CommitBatch(m, accepted));
    assert MemberFits(s, m);
    assert s.group.members[m].hand == [];
    forall n | n in t.group.members ensures MemberFits(t, n) {
      assert MemberFits(s, n);
    }
  }

  // ---------------------------------------------------------------- the handled entry

  /** The entry's event can happen, and takes its range out of the hand. */
  lemma EntryEnabled(g: Group, m: MemberId, batch: Batch, h: Handling)
    requires HeadInHand(g, m) && Contiguous(batch) && Head(g, m) == RangeOf(batch)
    requires h.fate.NotMine? <==> batch.tp !in g.members[m].assignment
    requires h.fate.Written? ==> EntryIsKept(batch, h.after.store, h.after.cache)
    ensures Enabled(g, EventOf(m, batch, h))
  {
    hide PlacesOf, AllKept;
    var cache := h.after.cache;
    PlacesFit(batch, h.after.store, if batch.tp.topic in cache then Identifies(cache[batch.tp.topic]) else None);
    assert Within(RangeOf(batch), Placing(batch, h.after));
    if h.fate.Written? {
      assert Identifies(cache[batch.tp.topic]) == Some(TableOf(cache[batch.tp.topic]));
      assert Fills(RangeOf(batch), Placing(batch, h.after));
    }
  }

  /** What the four events that take the head out of the hand do. */
  lemma HeadGoes(g: Group, m: MemberId, e: Event)
    requires e.PassOver? || e.NoConfig? || e.Write? || e.WriteFails?
    requires e.m == m && Enabled(g, e) && HeadInHand(g, m)
    ensures
      var (me, tp) := (g.members[m], Head(g, m).tp);
      && Next(g, e).members == g.members[m := me.(hand := if e.WriteFails? then [] else me.hand[1..],
                                                 offsets := if e.Write? then me.offsets[tp := Head(g, m).hi]
                                                            else me.offsets)]
      && Next(g, e).tabled == (if e.Write? || e.WriteFails? then g.tabled + Records(tp, e.toTable) else g.tabled)
      && Next(g, e).dlq == (if e.Write? || e.WriteFails? then g.dlq + Records(tp, e.toDlq) else g.dlq)
      && Next(g, e).committed == g.committed && Next(g, e).owner == g.owner
      && Next(g, e).ends == g.ends && Next(g, e).starts == g.starts
  {
    hide Enabled;
  }

  lemma EntryMoves(g: Group, m: MemberId, batch: Batch, h: Handling)
    requires batch.messages != [] && HeadInHand(g, m) && Head(g, m) == RangeOf(batch)
    requires Enabled(g, EventOf(m, batch, h))
    ensures
      var (me, u) := (g.members[m], Next(g, EventOf(m, batch, h)));
      && u.members == g.members[m := me.(hand := if h.fate.Failed? then [] else me.hand[1..],
                                         offsets := if h.fate.Written? then me.offsets[batch.tp := EndOf(batch)]
                                                    else me.offsets)]
      && u.committed == g.committed && u.owner == g.owner && u.ends == g.ends && u.starts == g.starts
  {
    hide Placing, Enabled, Next;
    HeadGoes(g, m, EventOf(m, batch, h));
  }

  lemma CacheOwns(cache: map<Topic, PipelineConfig>, ever: set<PipelineConfig>, topic: Topic)
    requires CacheFits(cache, ever) && topic in cache
    ensures cache[topic] in ever && TopicPipelineId(topic) == Some(cache[topic].pipelineId)
  {
  }

  /** Some more records count as written. */
  lemma BackedMore(g: Group, u: Group, t: Store, ever: set<PipelineConfig>, tp: Partition, placed: Placed)
    requires Backed(g, t, ever)
    requires u.tabled == g.tabled + Records(tp, placed.toTable) && u.dlq == g.dlq + Records(tp, placed.toDlq)
    requires forall o :: o in placed.toTable ==> InOwnTable(t, ever, tp, o)
    requires forall o :: o in placed.toDlq ==> InDeadLetters(t, tp, o)
    ensures Backed(u, t, ever)
  {
    hide InOwnTable, InDeadLetters;
  }

  lemma EntryWrites(g: Group, m: MemberId, batch: Batch, h: Handling, ever: set<PipelineConfig>)
    requires batch.messages != [] && HeadInHand(g, m) && Head(g, m) == RangeOf(batch)
    requires Enabled(g, EventOf(m, batch, h))
    requires Backed(g, h.after.store, ever) && CacheFits(h.after.cache, ever)
    requires h.fate.Written? || h.fate.Failed? ==> batch.tp.topic in h.after.cache
    ensures Backed(Next(g, EventOf(m, batch, h)), h.after.store, ever)
  {
    hide PlacesOf, InOwnTable, InDeadLetters, Enabled, CacheFits, Next;
    HeadGoes(g, m, EventOf(m, batch, h));
    if h.fate.Written? || h.fate.Failed? {
      CacheOwns(h.after.cache, ever, batch.tp.topic);
      var c := h.after.cache[batch.tp.topic];
      PlacesOwn(batch, h.after.store, c, ever);
      BackedMore(g, Next(g, EventOf(m, batch, h)), h.after.store, ever, batch.tp, Placing(batch, h.after));
    }
  }

  /** The code's view after one more entry. */
  lemma WorkMoves(me: Member, w: Work, fate: Fate)
    requires WorkFits(me, w) && |w.fates| < |w.batches| && (w.fates != [] ==> !w.fates[|w.fates| - 1].Failed?)
    ensures me.hand != [] && me.hand[0] == RangeOf(w.batches[|w.fates|])
    ensures
      var batch := w.batches[|w.fates|];
      WorkFits(me.(hand := if fate.Failed? then [] else me.hand[1..],
                   offsets := if fate.Written? then me.offsets[batch.tp := EndOf(batch)] else me.offsets),
               w.(fates := w.fates + [fate]))
  {
    OffsetsNext(w.batches, w.fates, fate);
    var k := |w.fates|;
    assert RangesOf(w.batches)[k..][1..] == RangesOf(w.batches)[k + 1..];
  }

  /** Nothing happens to logs, owners and other members, and m keeps its partitions and
      positions. */
  ghost predicate OnlyMember(g: Group, u: Group, m: MemberId) {
    && m in g.members && m in u.members && u.members == g.members[m := u.members[m]]
    && u.members[m].assignment == g.members[m].assignment && u.members[m].position == g.members[m].position
    && u.ends == g.ends && u.starts == g.starts && u.owner == g.owner
  }

  lemma EntryIsEvent(env: Setting, s: System, m: MemberId, h: Handling)
    requires Inv(s) && CanStep(env, s, HandleEntry(m, h))
    ensures Enabled(s.group, EventOf(m, Current(s, m), h))
    ensures
      var g := SystemNext(env, s, HandleEntry(m, h)).group;
      OnlyMember(s.group, g, m) && g.members[m].locked && g.committed == s.group.committed
    ensures Inv(SystemNext(env, s, HandleEntry(m, h)))
  {
    hide EntryDone, WorkFits, CacheFits, Backed, Filed, Enabled, EventOf, EntryIsKept, LookedUp;
    var (batch, me, w) := (Current(s, m), s.group.members[m], s.work[m]);
    assert MemberFits(s, m);
    EntryFate(env, batch.tp in me.assignment, s.configs, batch, h);
    EntryLeaves(env, batch.tp in me.assignment, s.configs, batch, h);
    LookupFits(s.caches[m], h.after.cache, s.configs, s.ever);
    WorkMoves(me, w, h.fate);
    FetchedIsContiguous(me, w, |w.fates|);
    EntryEnabled(s.group, m, batch, h);
    EntryMoves(s.group, m, batch, h);
    BackedLater(s.group, s.store, h.after.store, s.ever, s.ever);
    EntryWrites(s.group, m, batch, h, s.ever);
    var t := SystemNext(env, s, HandleEntry(m, h));
    forall n | n in t.group.members ensures MemberFits(t, n) {
      assert MemberFits(s, n);
    }
  }

  lemma FetchedIsContiguous(me: Member, w: Work, k: nat)
    requires WorkFits(me, w) && k < |w.batches|
    ensures Contiguous(w.batches[k])
  {
  }

  /** What the contract says about the fate. */
  lemma EntryFate(env: Setting, mine: bool, configs: map<string, PipelineConfig>, batch: Batch, h: Handling)
    requires EntryDone(env, mine, configs, batch, h)
    ensures h.fate.NotMine? <==> !mine
    ensures h.fate.Written? || h.fate.Failed? ==> batch.tp.topic in h.after.cache
  {
    hide SomeTimeWrote;
  }

  // ---------------------------------------------------------------- system runs are protocol runs

  lemma StepIsEvents(env: Setting, s: System, step: Step, disciplined: bool)
    requires Inv(s) && CanStep(env, s, step)
    requires disciplined ==> NoGap(s, step)
    ensures Inv(SystemNext(env, s, step))
    ensures Delivery.Run(s.group, EventsOf(env, s, step), disciplined)
    ensures Exec(s.group, EventsOf(env, s, step)) == SystemNext(env, s, step).group
  {
    hide Inv, Enabled, EntryDone;
    match step
    case Outside(e) =>
      OutsideInv(env, s, e);
      OneEvent(s.group, e, disciplined);
    case Register(config) => RegisterInv(env, s, config);
    case Unregister(id) => UnregisterInv(env, s, id);
    case BeginBatch(m, batches) =>
      BeginInv(env, s, m, batches);
      OneEvent(s.group, Begin(m), disciplined);
    case HandleEntry(m, h) =>
      EntryIsEvent(env, s, m, h);
      OneEvent(s.group, EventOf(m, Current(s, m), h), disciplined);
    case CommitBatch(m, accepted) =>
      CommitIsEvent(env, s, m, accepted);
      OneEvent(s.group, Commit(m, accepted), disciplined);
  }

  lemma OneEvent(g: Group, e: Event, disciplined: bool)
    requires Enabled(g, e) && (disciplined ==> NoGapFetched(g, e))
    ensures Delivery.Run(g, [e], disciplined) && Exec(g, [e]) == Next(g, e)
  {
    hide Enabled, NoGapFetched;
    assert [e][1..] == [];
    assert Delivery.Run(Next(g, e), [], disciplined);
  }

  /** Every run of the system, with any number of members handling entries in turn while
      the rest of the world goes on, is a run of the protocol with the same group. */
  lemma {:induction false} SystemIsRun(env: Setting, s: System, steps: seq<Step>, disciplined: bool)
      returns (events: seq<Event>)
    requires Inv(s) && SystemRun(env, s, steps, disciplined)
    ensures Delivery.Run(s.group, events, disciplined)
    ensures Exec(s.group, events) == SystemExec(env, s, steps).group
    ensures Inv(SystemExec(env, s, steps))
    decreases |steps|
  {
    hide Inv, CanStep, Enabled, NoGapFetched, SystemNext, EventsOf;
    if steps == [] {
      events := [];
    } else {
      StepIsEvents(env, s, steps[0], disciplined);
      var first := EventsOf(env, s, steps[0]);
      var later := SystemIsRun(env, SystemNext(env, s, steps[0]), steps[1..], disciplined);
      RunsConcatenate(s.group, first, later, disciplined);
      events := first + later;
    }
  }

  lemma StartInv()
    ensures Inv(START)
  {
  }

  // ---------------------------------------------------------------- the code is such a run

  lemma {:induction false} SystemThen(env: Setting, s: System, steps: seq<Step>, step: Step, disciplined: bool)
    requires SystemRun(env, s, steps, disciplined)
    requires CanStep(env, SystemExec(env, s, steps), step)
    requires disciplined ==> NoGap(SystemExec(env, s, steps), step)
    ensures SystemRun(env, s, steps + [step], disciplined)
    ensures SystemExec(env, s, steps + [step]) == SystemNext(env, SystemExec(env, s, steps), step)
    decreases |steps|
  {
    hide CanStep, SystemNext, NoGap;
    if steps == [] {
      assert [] + [step] == [step] && [step][1..] == [];
      assert SystemRun(env, SystemNext(env, s, step), [], disciplined);
    } else {
      SystemThen(env, SystemNext(env, s, steps[0]), steps[1..], step, disciplined);
      assert (steps + [step])[0] == steps[0] && (steps + [step])[1..] == steps[1..] + [step];
    }
  }

  lemma SystemStarts(env: Setting, s: System, step: Step, later: seq<Step>, disciplined: bool)
    requires CanStep(env, s, step) && (disciplined ==> NoGap(s, step))
    requires SystemRun(env, SystemNext(env, s, step), later, disciplined)
    ensures SystemRun(env, s, [step] + later, disciplined)
    ensures SystemExec(env, s, [step] + later) == SystemExec(env, SystemNext(env, s, step), later)
  {
    hide CanStep, SystemNext, NoGap;
    assert ([step] + later)[1..] == later;
  }

  function HandleSteps(m: MemberId, hs: seq<Handling>): seq<Step> {
    seq(|hs|, i requires 0 <= i < |hs| => HandleEntry(m, hs[i]))
  }

  ghost predicate NoneFailed(fates: seq<Fate>) {
    forall i :: 0 <= i < |fates| ==> !fates[i].Failed?
  }

  /** Where m is after these entries, seen from the start of its batch in s. */
  ghost predicate Handled(s: System, t: System, m: MemberId, batches: seq<Batch>, hs: seq<Handling>, after: Moment)
    requires m in s.group.members
  {
    && Inv(t)
    && OnlyMember(s.group, t.group, m) && t.group.members[m].locked
    && m in t.caches && Moment(t.store, t.caches[m]) == after
    && m in t.work && t.work[m] == Work(batches, Fates(hs))
    && t.configs == s.configs && t.ever == s.ever && t.group.committed == s.group.committed
  }

  lemma NextHandled(env: Setting, s: System, t: System, m: MemberId, batches: seq<Batch>, hs: seq<Handling>,
                    h: Handling)
    requires m in s.group.members && Handled(s, t, m, batches, hs, h.before)
    requires |hs| < |batches| && NoneFailed(Fates(hs))
    requires EntryDone(env, batches[|hs|].tp in s.group.members[m].assignment, s.configs, batches[|hs|], h)
    ensures CanStep(env, t, HandleEntry(m, h))
    ensures Handled(s, SystemNext(env, t, HandleEntry(m, h)), m, batches, hs + [h], h.after)
  {
    hide EntryDone, Inv;
    EntryIsEvent(env, t, m, h);
    assert Fates(hs + [h]) == Fates(hs) + [h.fate];
  }

  /** All entries but the last, and the last. */
  lemma EntriesSplit(env: Setting, assignment: set<Partition>, configs: map<string, PipelineConfig>,
                     batches: seq<Batch>, hs: seq<Handling>, before: Moment, after: Moment)
    requires EntriesDone(env, assignment, configs, batches, hs, before, after) && hs != []
    requires NoneFailed(Fates(hs)[..|hs| - 1])
    ensures
      var (early, h) := (hs[..|hs| - 1], hs[|hs| - 1]);
      && EntriesDone(env, assignment, configs, batches, early, before, h.before)
      && EntryDone(env, batches[|early|].tp in assignment, configs, batches[|early|], h)
      && h.after == after
      && NoneFailed(Fates(early)) && (early != [] ==> NoneFailed(Fates(early)[..|early| - 1]))
  {
    hide EntryDone;
    assert Fates(hs)[..|hs| - 1] == Fates(hs[..|hs| - 1]);
  }

  lemma HandleStepsSplit(m: MemberId, hs: seq<Handling>)
    requires hs != []
    ensures HandleSteps(m, hs) == HandleSteps(m, hs[..|hs| - 1]) + [HandleEntry(m, hs[|hs| - 1])]
    ensures hs[..|hs| - 1] + [hs[|hs| - 1]] == hs
  {
  }

  lemma {:induction false} EntriesRun(env: Setting, s: System, m: MemberId, batches: seq<Batch>, hs: seq<Handling>,
                                      after: Moment)
    requires m in s.group.members && m in s.caches && Handled(s, s, m, batches, [], Moment(s.store, s.caches[m]))
    requires EntriesDone(env, s.group.members[m].assignment, s.configs, batches, hs, Moment(s.store, s.caches[m]),
                         after)
    requires hs != [] ==> NoneFailed(Fates(hs)[..|hs| - 1])
    ensures SystemRun(env, s, HandleSteps(m, hs), true)
    ensures Handled(s, SystemExec(env, s, HandleSteps(m, hs)), m, batches, hs, after)
    decreases |hs|
  {
    hide EntryDone, CanStep, SystemNext, Handled, NoneFailed;
    if hs == [] {
      assert HandleSteps(m, hs) == [];
    } else {
      hide EntriesDone, HandleSteps;
      var (early, h) := (hs[..|hs| - 1], hs[|hs| - 1]);
      EntriesSplit(env, s.group.members[m].assignment, s.configs, batches, hs, Moment(s.store, s.caches[m]), after);
      HandleStepsSplit(m, hs);
      EntriesRun(env, s, m, batches, early, h.before);
      var t := SystemExec(env, s, HandleSteps(m, early));
      NextHandled(env, s, t, m, batches, early, h);
      SystemThen(env, s, HandleSteps(m, early), HandleEntry(m, h), true);
    }
  }

  /** Where m's whole batch leaves the system: with the code's store and cache, with exactly
      these offsets committed, or none if the commit was rejected, and m out of the lock. */
  ghost predicate BatchLeaves(s: System, t: System, m: MemberId, offsets: map<Partition, nat>, after: Moment,
                              accepted: bool)
  {
    && Inv(t)
    && t.store == after.store && m in t.caches && t.caches[m] == after.cache
    && t.configs == s.configs && t.ever == s.ever
    && OnlyMember(s.group, t.group, m) && !t.group.members[m].locked
    && t.group.members[m].hand == [] && t.group.members[m].offsets == map[]
    && t.group.committed == if accepted then s.group.committed + offsets else s.group.committed
  }

  lemma BatchBegins(env: Setting, s: System, m: MemberId, batches: seq<Batch>)
    requires Inv(s) && CanStep(env, s, BeginBatch(m, batches))
    ensures m in s.caches
    ensures
      var t := SystemNext(env, s, BeginBatch(m, batches));
      && Handled(t, t, m, batches, [], Moment(s.store, s.caches[m]))
      && t.store == s.store && t.caches == s.caches && t.configs == s.configs && t.ever == s.ever
      && OnlyMember(s.group, t.group, m) && t.group.committed == s.group.committed
  {
    hide CacheFits, Backed, Filed, WorkFits;
    BeginInv(env, s, m, batches);
    assert MemberFits(s, m);
    assert Fates([]) == [];
  }

  lemma BatchCanEnd(env: Setting, s: System, t: System, m: MemberId, batches: seq<Batch>, hs: seq<Handling>,
                    after: Moment, accepted: bool)
    requires m in s.group.members && Handled(s, t, m, batches, hs, after)
    requires WellFormed(batches) && |hs| <= |batches| && StopsAtFailure(batches, Fates(hs))
    requires accepted ==> OffsetsOf(batches, Fates(hs)).Keys <= OwnedBy(s.group.owner, m)
    ensures CanStep(env, t, CommitBatch(m, accepted)) && t.group.members[m].hand == []
  {
    hide CacheFits, Backed, Filed, OffsetsOf;
    assert MemberFits(t, m);
  }

  lemma BatchEnds(env: Setting, s: System, t: System, m: MemberId, batches: seq<Batch>, hs: seq<Handling>,
                  after: Moment, accepted: bool)
    requires m in s.group.members && Handled(s, t, m, batches, hs, after)
    requires WellFormed(batches) && |hs| <= |batches| && StopsAtFailure(batches, Fates(hs))
    requires accepted ==> OffsetsOf(batches, Fates(hs)).Keys <= OwnedBy(s.group.owner, m)
    ensures CanStep(env, t, CommitBatch(m, accepted))
    ensures BatchLeaves(s, SystemNext(env, t, CommitBatch(m, accepted)), m, OffsetsOf(batches, Fates(hs)), after,
                        accepted)
  {
    hide Inv, OffsetsOf, WellFormed, StopsAtFailure, CanStep;
    BatchCanEnd(env, s, t, m, batches, hs, after, accepted);
    CommitIsEvent(env, t, m, accepted);
  }

  /** The same seen from the state before the lock was taken. */
  lemma LeavesFromBefore(s: System, begun: System, t: System, m: MemberId, offsets: map<Partition, nat>, after: Moment,
                         accepted: bool)
    requires BatchLeaves(begun, t, m, offsets, after, accepted)
    requires OnlyMember(s.group, begun.group, m) && begun.group.committed == s.group.committed
    requires begun.configs == s.configs && begun.ever == s.ever
    ensures BatchLeaves(s, t, m, offsets, after, accepted)
  {
    hide Inv;
  }

  lemma NoneFailedBefore(batches: seq<Batch>, hs: seq<Handling>)
    requires StopsAtFailure(batches, Fates(hs)) && hs != []
    ensures NoneFailed(Fates(hs)[..|hs| - 1])
  {
  }

  /** The whole of `_handle`: what the code promises for a batch is a run of the system from
      the moment the lock is taken, to a state with the code's store and cache, and with
      exactly the offsets committed that the code's dict holds, or none if the commit is
      rejected. */
  lemma BatchIsSystemRun(env: Setting, s: System, m: MemberId, batches: seq<Batch>, hs: seq<Handling>, after: Moment,
                         accepted: bool)
      returns (steps: seq<Step>)
    requires Inv(s) && CanStep(env, s, BeginBatch(m, batches)) && m in s.caches
    requires EntriesDone(env, s.group.members[m].assignment, s.configs, batches, hs, Moment(s.store, s.caches[m]),
                         after)
    requires StopsAtFailure(batches, Fates(hs))
    requires accepted ==> OffsetsOf(batches, Fates(hs)).Keys <= OwnedBy(s.group.owner, m)
    ensures steps == [BeginBatch(m, batches)] + (HandleSteps(m, hs) + [CommitBatch(m, accepted)])
    ensures SystemRun(env, s, steps, true)
    ensures BatchLeaves(s, SystemExec(env, s, steps), m, OffsetsOf(batches, Fates(hs)), after, accepted)
  {
    BatchBegins(env, s, m, batches);
    var (begun, end) := (SystemNext(env, s, BeginBatch(m, batches)), CommitBatch(m, accepted));
    if hs != [] {
      NoneFailedBefore(batches, hs);
    }
    hide EntryDone, Inv, CanStep, SystemNext, StopsAtFailure, Chained, BatchLeaves;
    EntriesRun(env, begun, m, batches, hs, after);
    var t := SystemExec(env, begun, HandleSteps(m, hs));
    BatchEnds(env, begun, t, m, batches, hs, after, accepted);
    SystemThen(env, begun, HandleSteps(m, hs), end, true);
    LeavesFromBefore(s, begun, SystemNext(env, t, end), m, OffsetsOf(batches, Fates(hs)), after, accepted);
    SystemStarts(env, s, BeginBatch(m, batches), HandleSteps(m, hs) + [end], true);
    steps := [BeginBatch(m, batches)] + (HandleSteps(m, hs) + [end]);
  }

  // ---------------------------------------------------------------- main results

  /** In every run of any number of members and partitions, with crashes, rebalances, failed
      writes, rejected commits and changes to the repository in any order, every retained
      record below a committed offset is in its own table or in the dead-letter table of
      the store, or was in a batch that the code skipped. */
  lemma NothingElseIsLost(env: Setting, steps: seq<Step>, tp: Partition, o: nat)
    requires SystemRun(env, START, steps, false)
    requires
      var s := SystemExec(env, START, steps);
      tp in s.group.committed && o < s.group.committed[tp]
    ensures
      var s := SystemExec(env, START, steps);
      || InOwnTable(s.store, s.ever, tp, o) || InDeadLetters(s.store, tp, o)
      || o < Get(s.group.starts, tp) || Skipped(s.group, tp, o)
  {
    hide InOwnTable, InDeadLetters, Skipped, CanStep, SystemNext;
    StartInv();
    var events := SystemIsRun(env, START, steps, false);
    DeliverySafety.NothingElseIsLost(events, tp, o);
    if Delivered(SystemExec(env, START, steps).group, tp, o) {
      DeliveredIsStored(SystemExec(env, START, steps), tp, o);
    }
  }

  /** At-least-once, in the store: if every skipped batch is followed by a crash or a
      reassignment before that member fetches the partition again, every retained record
      below a committed offset is in its own table or in the dead-letter table. */
  lemma AtLeastOnce(env: Setting, steps: seq<Step>, tp: Partition, o: nat)
    requires SystemRun(env, START, steps, true)
    requires
      var s := SystemExec(env, START, steps);
      tp in s.group.committed && o < s.group.committed[tp]
    ensures
      var s := SystemExec(env, START, steps);
      || InOwnTable(s.store, s.ever, tp, o) || InDeadLetters(s.store, tp, o)
      || o < Get(s.group.starts, tp)
  {
    hide InOwnTable, InDeadLetters, CanStep, SystemNext;
    StartInv();
    var events := SystemIsRun(env, START, steps, true);
    DeliverySafety.AtLeastOnce(events, tp, o);
    if Delivered(SystemExec(env, START, steps).group, tp, o) {
      DeliveredIsStored(SystemExec(env, START, steps), tp, o);
    }
  }

  lemma DeliveredIsStored(s: System, tp: Partition, o: nat)
    requires Inv(s) && Delivered(s.group, tp, o)
    ensures InOwnTable(s.store, s.ever, tp, o) || InDeadLetters(s.store, tp, o)
  {
    hide InOwnTable, InDeadLetters, MemberFits, Filed;
    var r := Record(tp, o);
    assert r in s.group.tabled ==> InOwnTable(s.store, s.ever, r.tp, r.offset);
  }

  /** Delete does not drop drained data, in the store: in every run of the system that lets a
      request delete its topic, every record that goes is in its own table or in the
      dead-letter table, or expired, or (unless the run is disciplined) was skipped, or was
      appended after the request last read the end offsets. */
  lemma DeleteDestroysOnlyStored(env: Setting, steps: seq<Step>, disciplined: bool, id: RequestId)
      returns (events: seq<Event>, n: nat)
    requires SystemRun(env, START, steps, disciplined)
    requires Enabled(SystemExec(env, START, steps).group, DeleteTopic(id))
    ensures Delivery.Run(INITIAL, events, disciplined)
    ensures Exec(INITIAL, events) == SystemExec(env, START, steps).group
    ensures n < |events| && Delivery.Run(INITIAL, events[..n], disciplined)
    ensures DrainAndDelete.IsRead(events[n], id) && DrainAndDelete.NoRead(events[n + 1..], id)
    ensures OnlyStoredDestroyed(SystemExec(env, START, steps), Exec(INITIAL, events[..n]), disciplined, id)
  {
    assert id in SystemExec(env, START, steps).group.drains;
    hide CanStep, SystemNext, InOwnTable, InDeadLetters, Enabled;
    StartInv();
    events := SystemIsRun(env, START, steps, disciplined);
    n := DrainAndDelete.DeleteDestroysOnlyLaterRecords(events, disciplined, id);
    var s, r := SystemExec(env, START, steps), Exec(INITIAL, events[..n]);
    forall tp, o: nat | DrainAndDelete.Destroyed(s.group, id, tp, o) ensures StoredOrLater(s, r, disciplined, tp, o) {
      assert Safe(s.group, disciplined, tp, o) || Get(r.ends, tp) <= o;
      if Delivered(s.group, tp, o) {
        DeliveredIsStored(s, tp, o);
      }
    }
  }

  ghost predicate StoredOrLater(s: System, r: Group, disciplined: bool, tp: Partition, o: nat) {
    || InOwnTable(s.store, s.ever, tp, o) || InDeadLetters(s.store, tp, o)
    || o < Get(s.group.starts, tp)
    || (!disciplined && Skipped(s.group, tp, o))
    || Get(r.ends, tp) <= o
  }

  ghost predicate OnlyStoredDestroyed(s: System, r: Group, disciplined: bool, id: RequestId) {
    id in s.group.drains &&
    forall tp, o: nat :: DrainAndDelete.Destroyed(s.group, id, tp, o) ==> StoredOrLater(s, r, disciplined, tp, o)
  }

  /** If no id is ever registered twice, the own table is that of the one config. */
  lemma OwnTableIsUnique(t: Store, ever: set<PipelineConfig>, tp: Partition, o: nat, c: PipelineConfig)
    requires InOwnTable(t, ever, tp, o)
    requires forall a, b :: a in ever && b in ever && a.pipelineId == b.pipelineId ==> a == b
    requires c in ever && TopicPipelineId(tp.topic) == Some(c.pipelineId)
    ensures Identifies(c).Some? && CoordOf(tp, o) in Origins(RowsIn(t, TableOf(c)))
  {
  }
}

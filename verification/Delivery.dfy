/** The consumer pool's delivery protocol: any number of pool members share one Kafka
    consumer group, move records from topic partitions into per-pipeline tables or the
    dead-letter table, and commit offsets afterwards.

    Every await at which another member, the broker or the task manager can run is the
    boundary between two events.  `Next` says what one event does, `Enabled` when it can
    happen, and a run is a sequence of events. */
module Delivery {

  type Topic = string
  type MemberId = nat
  type RequestId = nat

  datatype Partition = Partition(topic: Topic, index: nat)

  /** A record is named by its coordinates. */
  datatype Record = Record(tp: Partition, offset: nat)

  /** The messages of one partition inside a fetched batch: offsets lo..hi. */
  datatype Range = Range(tp: Partition, lo: nat, hi: nat)

  /** One pool process.  `hand` is what is left of the batch that getmany returned,
      `offsets` the local dict of offsets to commit, `locked` whether the process is
      inside `_handle`.  `assignment` is the process's own view of its assignment. */
  datatype Member = Member(
    assignment: set<Partition>,
    position: map<Partition, nat>,
    hand: seq<Range>,
    locked: bool,
    offsets: map<Partition, nat>)

  const FRESH := Member({}, map[], [], false, map[])

  /** Progress of one delete request's `wait_for_drain` on its topic. */
  datatype Drain =
    | ReadingEnds(topic: Topic, partitions: set<Partition>)
    | ReadingCommitted(topic: Topic, ends: map<Partition, nat>)
    | Drained(topic: Topic, ends: map<Partition, nat>)

  /** `ends` are the logs' end offsets, 0 for a partition nothing was appended to, and
      `starts` their first retained offsets; `owner` is the group coordinator's view of the
      assignment.  `skipped` and `open` are bookkeeping the program does not have: which
      records were dropped by a `break` or for want of a config, and which member still has
      its position past such a gap.
      `tabled` and `dlq` count what was written; module PoolSystem says what they mean in
      the store. */
  datatype Group = Group(
    ends: map<Partition, nat>,
    starts: map<Partition, nat>,
    committed: map<Partition, nat>,
    owner: map<Partition, MemberId>,
    members: map<MemberId, Member>,
    tabled: set<Record>,
    dlq: set<Record>,
    skipped: set<Range>,
    open: set<(MemberId, Partition)>,
    drains: map<RequestId, Drain>,
    gone: set<Topic>)

  const INITIAL := Group(map[], map[], map[], map[], map[], {}, {}, {}, {}, map[], {})

  datatype Event =
    | CreateTopic(topic: Topic, partitions: set<Partition>)
    | Append(tp: Partition)
    | Expire(tp: Partition, upTo: nat)
    | Join(m: MemberId)
    | Crash(m: MemberId)
    | Reassign(m: MemberId, partitions: set<Partition>)
    | Fetch(m: MemberId, batch: seq<Range>)
    | Begin(m: MemberId)
    | PassOver(m: MemberId)
    | NoConfig(m: MemberId)
    | Write(m: MemberId, toTable: set<nat>, toDlq: set<nat>)
    | WriteFails(m: MemberId, toTable: set<nat>, toDlq: set<nat>)
    | Commit(m: MemberId, accepted: bool)
    | DrainStart(id: RequestId, topic: Topic)
    | DrainReadEnds(id: RequestId)
    | DrainReadCommitted(id: RequestId)
    | DrainGivesUp(id: RequestId)
    | DeleteTopic(id: RequestId)

  // ---------------------------------------------------------------- helpers

  function Get(m: map<Partition, nat>, tp: Partition): nat {
    if tp in m then m[tp] else 0
  }

  function Max(a: nat, b: nat): nat {
    if a < b then b else a
  }

  predicate Covers(r: Range, tp: Partition, o: nat) {
    r.tp == tp && r.lo <= o < r.hi
  }

  function Records(tp: Partition, offsets: set<nat>): set<Record> {
    set o | o in offsets :: Record(tp, o)
  }

  /** Those remaining ranges that the member was going to write. */
  function Abandoned(hand: seq<Range>, mine: set<Partition>): set<Range> {
    set r | r in hand && r.tp in mine
  }

  function PartitionsOf(hand: seq<Range>): set<Partition> {
    set r | r in hand :: r.tp
  }

  function TopicPartitions(s: Group, topic: Topic): set<Partition> {
    set tp | tp in s.ends && tp.topic == topic
  }

  /** Where a consumer starts a partition it was just assigned: the committed offset, or
      the earliest one if there is none (auto_offset_reset). */
  function ResetPosition(s: Group, tp: Partition): nat {
    if tp in s.committed then s.committed[tp] else Get(s.starts, tp)
  }

  /** The first offset a fetch returns: the position, or the earliest retained offset if
      the position has expired. */
  function FetchFrom(s: Group, me: Member, tp: Partition): nat {
    Max(Get(me.position, tp), Get(s.starts, tp))
  }

  function OwnedBy(owner: map<Partition, MemberId>, m: MemberId): set<Partition> {
    set tp | tp in owner && owner[tp] == m
  }

  predicate DistinctPartitions(batch: seq<Range>) {
    forall i, j :: 0 <= i < j < |batch| ==> batch[i].tp != batch[j].tp
  }

  // ---------------------------------------------------------------- the protocol

  /** When an event can happen.  A rebalance (`Reassign`) cannot run while the member
      holds the lock; a commit is accepted only from the current owner of every
      partition in it, and may be rejected at any time. */
  ghost predicate Enabled(s: Group, e: Event) {
    match e
    case CreateTopic(topic, tps) =>
      && topic !in s.gone && TopicPartitions(s, topic) == {}
      && tps != {} && forall tp :: tp in tps ==> tp.topic == topic
    case Append(tp) => tp in s.ends
    case Expire(tp, upTo) => tp in s.ends && Get(s.starts, tp) <= upTo <= s.ends[tp]
    case Join(m) => m !in s.members
    case Crash(m) => m in s.members
    case Reassign(m, tps) => m in s.members && !s.members[m].locked && tps <= s.ends.Keys
    case Fetch(m, batch) =>
      && m in s.members
      && !s.members[m].locked
      && s.members[m].hand == []
      && batch != []
      && DistinctPartitions(batch)
      && (forall r :: r in batch ==>
            && r.tp in s.members[m].assignment
            && r.tp in s.members[m].position
            && r.tp in s.ends
            && r.lo == FetchFrom(s, s.members[m], r.tp)
            && r.lo < r.hi <= s.ends[r.tp])
    case Begin(m) => m in s.members && !s.members[m].locked && s.members[m].hand != []
    case PassOver(m) => HeadInHand(s, m) && Head(s, m).tp !in s.members[m].assignment
    case NoConfig(m) => HeadInHand(s, m) && Head(s, m).tp in s.members[m].assignment
    case Write(m, toTable, toDlq) =>
      && HeadInHand(s, m)
      && Head(s, m).tp in s.members[m].assignment
      && (forall o: nat :: o in toTable + toDlq <==> Covers(Head(s, m), Head(s, m).tp, o))
    case WriteFails(m, toTable, toDlq) =>
      && HeadInHand(s, m)
      && Head(s, m).tp in s.members[m].assignment
      && (forall o: nat :: o in toTable + toDlq ==> Covers(Head(s, m), Head(s, m).tp, o))
    case Commit(m, accepted) =>
      && m in s.members
      && s.members[m].locked
      && s.members[m].hand == []
      && (accepted ==> s.members[m].offsets.Keys <= OwnedBy(s.owner, m))
    case DrainStart(id, topic) => id !in s.drains
    case DrainReadEnds(id) =>
      && id in s.drains && s.drains[id].ReadingEnds?
      && s.drains[id].partitions <= s.ends.Keys
    case DrainReadCommitted(id) => id in s.drains && s.drains[id].ReadingCommitted?
    case DrainGivesUp(id) => id in s.drains && !s.drains[id].Drained?
    case DeleteTopic(id) => id in s.drains && s.drains[id].Drained?
  }

  ghost predicate HeadInHand(s: Group, m: MemberId) {
    m in s.members && s.members[m].locked && s.members[m].hand != []
  }

  ghost function Head(s: Group, m: MemberId): Range
    requires HeadInHand(s, m)
  {
    s.members[m].hand[0]
  }

  ghost function Next(s: Group, e: Event): Group
    requires Enabled(s, e)
  {
    match e
    case CreateTopic(_, tps) => s.(ends := s.ends + map tp | tp in tps :: 0)
    case Append(tp) => s.(ends := s.ends[tp := s.ends[tp] + 1])
    case Expire(tp, upTo) => s.(starts := s.starts[tp := upTo])
    case Join(m) => s.(members := s.members[m := FRESH])
    case Crash(m) =>
      s.(members := s.members - {m},
         owner := s.owner - OwnedBy(s.owner, m),
         open := Closed(s.open, m))
    case Reassign(m, tps) =>
      s.(members := s.members[m := s.members[m].(
                      assignment := tps,
                      position := map tp | tp in tps :: ResetPosition(s, tp))],
         owner := (s.owner - OwnedBy(s.owner, m)) + (map tp | tp in tps :: m),
         open := Closed(s.open, m))
    case Fetch(m, batch) =>
      s.(members := s.members[m := s.members[m].(
                      hand := batch,
                      position := Advance(s.members[m].position, batch))])
    case Begin(m) =>
      s.(members := s.members[m := s.members[m].(locked := true, offsets := map[])])
    case PassOver(m) =>
      s.(members := s.members[m := Pop(s.members[m])])
    case NoConfig(m) =>
      var head := Head(s, m);
      s.(members := s.members[m := Pop(s.members[m])],
         skipped := s.skipped + {head},
         open := s.open + {(m, head.tp)})
    case Write(m, toTable, toDlq) =>
      var head := Head(s, m);
      s.(members := s.members[m := Pop(s.members[m]).(offsets := s.members[m].offsets[head.tp := head.hi])],
         tabled := s.tabled + Records(head.tp, toTable),
         dlq := s.dlq + Records(head.tp, toDlq))
    case WriteFails(m, toTable, toDlq) =>
      var head, me := Head(s, m), s.members[m];
      s.(members := s.members[m := me.(hand := [])],
         tabled := s.tabled + Records(head.tp, toTable),
         dlq := s.dlq + Records(head.tp, toDlq),
         skipped := s.skipped + Abandoned(me.hand, me.assignment),
         open := s.open + set tp | tp in PartitionsOf(me.hand) :: (m, tp))
    case Commit(m, accepted) =>
      var me := s.members[m];
      s.(members := s.members[m := me.(locked := false, offsets := map[])],
         committed := if accepted then s.committed + me.offsets else s.committed)
    case DrainStart(id, topic) =>
      var tps := TopicPartitions(s, topic);
      // No topic, nothing to drain.
      s.(drains := s.drains[id := if tps == {} then Drained(topic, map[]) else ReadingEnds(topic, tps)])
    case DrainReadEnds(id) =>
      s.(drains := s.drains[id := ReadingCommitted(s.drains[id].topic,
           map tp | tp in s.drains[id].partitions :: Get(s.ends, tp))])
    case DrainReadCommitted(id) =>
      s.(drains := s.drains[id :=
           if CommittedPast(s, s.drains[id].ends) then Drained(s.drains[id].topic, s.drains[id].ends)
           else ReadingEnds(s.drains[id].topic, s.drains[id].ends.Keys)])
    case DrainGivesUp(id) => s.(drains := s.drains - {id})
    case DeleteTopic(id) =>
      WithoutTopic(s, s.drains[id].topic).(drains := s.drains - {id})
  }

  function WithoutTopic(s: Group, topic: Topic): Group {
    s.(ends := map tp | tp in s.ends && tp.topic != topic :: s.ends[tp], gone := s.gone + {topic})
  }

  /** The drain test: every partition's committed offset has reached the end offset.  No
      commit yet reads as 0, which is drained only if the partition is empty. */
  ghost predicate CommittedPast(s: Group, ends: map<Partition, nat>) {
    forall tp :: tp in ends ==> ends[tp] <= Get(s.committed, tp)
  }

  ghost function Closed(open: set<(MemberId, Partition)>, m: MemberId): set<(MemberId, Partition)> {
    set p | p in open && p.0 != m
  }

  function Pop(me: Member): Member
    requires me.hand != []
  {
    me.(hand := me.hand[1..])
  }

  /** getmany moves the position of every partition in the batch to the batch's end. */
  function Advance(position: map<Partition, nat>, batch: seq<Range>): map<Partition, nat> {
    map tp | tp in position :: NewPosition(batch, tp, position[tp])
  }

  function NewPosition(batch: seq<Range>, tp: Partition, current: nat): nat {
    if batch == [] then current
    else if batch[0].tp == tp then batch[0].hi
    else NewPosition(batch[1..], tp, current)
  }

  // ---------------------------------------------------------------- runs

  /** The events can happen one after the other, starting in s.  With `disciplined`, no
      member ever fetches a partition on which it still has an open gap: every skipped
      batch is followed by a crash or a reassignment first. */
  ghost predicate Run(s: Group, events: seq<Event>, disciplined: bool): (r: bool)
    ensures r && disciplined ==> Run(s, events, false)
    decreases |events|, disciplined
  {
    events != [] ==>
      && Enabled(s, events[0])
      && (disciplined ==> NoGapFetched(s, events[0]))
      && Run(Next(s, events[0]), events[1..], disciplined)
  }

  ghost predicate NoGapFetched(s: Group, e: Event) {
    e.Fetch? ==> forall r :: r in e.batch ==> (e.m, r.tp) !in s.open
  }

  ghost function Exec(s: Group, events: seq<Event>): Group
    requires Run(s, events, false)
    decreases |events|
  {
    if events == [] then s else Exec(Next(s, events[0]), events[1..])
  }

  // ---------------------------------------------------------------- what is promised

  /** The record was written to its pipeline's table or to the dead-letter table. */
  ghost predicate Delivered(s: Group, tp: Partition, o: nat) {
    Record(tp, o) in s.tabled || Record(tp, o) in s.dlq
  }

  /** The record was in a batch that a `break` or a missing config dropped. */
  ghost predicate Skipped(s: Group, tp: Partition, o: nat) {
    exists r :: r in s.skipped && Covers(r, tp, o)
  }

  /** Not lost by the pool: delivered, or removed by Kafka's own retention; and, unless
      `strict`, skipped for a reason the code names. */
  ghost predicate Safe(s: Group, strict: bool, tp: Partition, o: nat) {
    || Delivered(s, tp, o)
    || o < Get(s.starts, tp)
    || (!strict && Skipped(s, tp, o))
  }

  ghost predicate SafeBelow(s: Group, strict: bool, tp: Partition, n: nat) {
    forall o: nat :: o < n ==> Safe(s, strict, tp, o)
  }

  /** Everything below every committed offset is safe. */
  ghost predicate CommittedSafe(s: Group, strict: bool) {
    forall tp :: tp in s.committed ==> SafeBelow(s, strict, tp, s.committed[tp])
  }

  ghost predicate InHand(me: Member, tp: Partition, o: nat) {
    exists r :: r in me.hand && Covers(r, tp, o)
  }

  ghost predicate MemberSafe(s: Group, strict: bool, m: MemberId)
    requires m in s.members
  {
    var me := s.members[m];
    && (forall tp :: tp in me.assignment && tp in me.position && !(strict && (m, tp) in s.open) ==>
          forall o: nat :: o < me.position[tp] ==> Safe(s, strict, tp, o) || InHand(me, tp, o))
    && (forall r :: r in me.hand ==> SafeBelow(s, strict, r.tp, r.lo))
    && (forall tp :: tp in me.offsets ==> SafeBelow(s, strict, tp, me.offsets[tp]))
  }

  ghost predicate DrainsSafe(s: Group, strict: bool) {
    forall id, tp :: id in s.drains && s.drains[id].Drained? && tp in s.drains[id].ends ==>
      SafeBelow(s, strict, tp, s.drains[id].ends[tp])
  }

  ghost predicate Inv(s: Group, strict: bool) {
    && CommittedSafe(s, strict)
    && (forall m :: m in s.members ==> MemberSafe(s, strict, m))
    && DrainsSafe(s, strict)
  }
}

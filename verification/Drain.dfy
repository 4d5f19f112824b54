/** Deleting a pipeline: stop the producer, wait for the pool to drain the topic, delete the
    topic.  The drain reads end offsets and committed offsets in two separate calls while
    producers and pool members keep running. */
module DrainAndDelete {
  import opened Delivery
  import opened DeliverySafety

  // ---------------------------------------------------------------- what every run keeps

  /** A drain under way looks at all partitions of its topic, unless some other request has
      deleted the topic meanwhile. */
  ghost predicate LooksAtAll(s: Group, d: Drain) {
    match d
    case ReadingEnds(topic, tps) => tps != {} && (topic in s.gone || tps == TopicPartitions(s, topic))
    case ReadingCommitted(topic, ends) => ends != map[] && (topic in s.gone || ends.Keys == TopicPartitions(s, topic))
    case Drained(_, _) => true
  }

  ghost predicate Complete(s: Group) {
    && (forall id :: id in s.drains ==> LooksAtAll(s, s.drains[id]))
    && (forall tp :: tp in s.ends ==> tp.topic !in s.gone)
  }

  lemma DrainStepComplete(s: Group, e: Event)
    requires Complete(s) && Enabled(s, e)
    requires e.DrainStart? || e.DrainReadEnds? || e.DrainReadCommitted? || e.DrainGivesUp?
    ensures Complete(Next(s, e))
  {
    var t := Next(s, e);
    forall id | id in t.drains ensures LooksAtAll(t, t.drains[id]) {
      if id == e.id && e.DrainReadEnds? {
        assert t.drains[id].ends.Keys == s.drains[id].partitions;
      } else if id != e.id {
        assert LooksAtAll(s, s.drains[id]);
      }
      assert forall topic :: TopicPartitions(t, topic) == TopicPartitions(s, topic);
    }
  }

  lemma TopicStepComplete(s: Group, e: Event)
    requires Complete(s) && Enabled(s, e)
    requires e.CreateTopic? || e.Append? || e.DeleteTopic?
    ensures Complete(Next(s, e))
  {
    var t := Next(s, e);
    forall id | id in t.drains ensures LooksAtAll(t, t.drains[id]) {
      assert LooksAtAll(s, s.drains[id]);
      var topic := s.drains[id].topic;
      assert topic in t.gone || TopicPartitions(s, topic) == {}
        || TopicPartitions(t, topic) == TopicPartitions(s, topic);
    }
  }

  lemma StepComplete(s: Group, e: Event)
    requires Complete(s) && Enabled(s, e)
    ensures Complete(Next(s, e))
  {
    if e.DrainStart? || e.DrainReadEnds? || e.DrainReadCommitted? || e.DrainGivesUp? {
      DrainStepComplete(s, e);
    } else if e.CreateTopic? || e.Append? || e.DeleteTopic? {
      TopicStepComplete(s, e);
    } else {
      var t := Next(s, e);
      assert t.ends == s.ends && t.drains == s.drains && t.gone == s.gone;
      assert forall topic :: TopicPartitions(t, topic) == TopicPartitions(s, topic);
    }
  }

  lemma {:induction false} RunComplete(s: Group, events: seq<Event>)
    requires Complete(s) && Run(s, events, false)
    ensures Complete(Exec(s, events))
    decreases |events|
  {
    if events != [] {
      StepComplete(s, events[0]);
      RunComplete(Next(s, events[0]), events[1..]);
    }
  }

  // ---------------------------------------------------------------- the last read

  /** The event fixes what the request takes for the end of the topic: its start, if there
      was no topic, or a read of the end offsets. */
  predicate IsRead(e: Event, id: RequestId) {
    e == DrainReadEnds(id) || (e.DrainStart? && e.id == id)
  }

  ghost predicate NoRead(events: seq<Event>, id: RequestId) {
    forall e :: e in events ==> !IsRead(e, id)
  }

  /** The position of the request's last read, or -1. */
  function LastRead(events: seq<Event>, id: RequestId): (n: int)
    ensures -1 <= n < |events|
    ensures n >= 0 ==> IsRead(events[n], id)
  {
    if events == [] then -1
    else if IsRead(events[|events| - 1], id) then |events| - 1
    else LastRead(events[..|events| - 1], id)
  }

  lemma TailOf(events: seq<Event>, n: nat)
    requires n < |events|
    ensures events[n..] == events[..|events| - 1][n..] + [events[|events| - 1]]
  {
  }

  lemma {:induction false} NothingAfterLast(events: seq<Event>, id: RequestId)
    ensures NoRead(events[LastRead(events, id) + 1..], id)
  {
    if events != [] && !IsRead(events[|events| - 1], id) {
      NothingAfterLast(events[..|events| - 1], id);
      TailOf(events, LastRead(events, id) + 1);
    }
  }

  /** Without a read a request neither appears nor changes its topic. */
  lemma StepKeepsTopic(s: Group, e: Event, id: RequestId)
    requires Enabled(s, e) && !IsRead(e, id)
    ensures id in Next(s, e).drains ==> id in s.drains && Next(s, e).drains[id].topic == s.drains[id].topic
  {
  }

  lemma {:induction false} RunKeepsTopic(s: Group, events: seq<Event>, id: RequestId)
    requires Run(s, events, false) && NoRead(events, id)
    ensures id in Exec(s, events).drains ==> id in s.drains && Exec(s, events).drains[id].topic == s.drains[id].topic
    decreases |events|
  {
    if events != [] {
      assert events[0] in events;
      StepKeepsTopic(s, events[0], id);
      assert forall e :: e in events[1..] ==> e in events;
      RunKeepsTopic(Next(s, events[0]), events[1..], id);
    }
  }

  /** What the request knows in s of the topic as it was in r, its last read being e. */
  ghost predicate SinceRead(r: Group, e: Event, s: Group, id: RequestId) {
    id in s.drains ==> KnowsSince(r, e, s.drains[id], s.gone)
  }

  ghost predicate KnowsSince(r: Group, e: Event, d: Drain, gone: set<Topic>) {
    && (e.DrainStart? ==> !d.ReadingCommitted? && (d.Drained? ==> TopicPartitions(r, d.topic) == {}))
    && (d.ReadingEnds? || d.topic in gone ||
        forall tp :: tp in TopicPartitions(r, d.topic) ==> tp in d.ends && d.ends[tp] == r.ends[tp])
  }

  lemma ReadFixes(r: Group, e: Event, id: RequestId)
    requires Complete(r) && Enabled(r, e) && IsRead(e, id)
    ensures SinceRead(r, e, Next(r, e), id)
  {
    if e.DrainReadEnds? {
      assert LooksAtAll(r, r.drains[id]);
    }
  }

  /** How one event changes a request's drain, short of a read. */
  lemma DrainAfter(s: Group, f: Event, id: RequestId)
    requires Enabled(s, f) && !IsRead(f, id) && id in Next(s, f).drains
    ensures id in s.drains && s.gone <= Next(s, f).gone
    ensures
      var (d, d') := (s.drains[id], Next(s, f).drains[id]);
      || d' == d
      || (d.ReadingCommitted? && (d' == Drained(d.topic, d.ends) || d' == ReadingEnds(d.topic, d.ends.Keys)))
  {
  }

  lemma StepSinceRead(r: Group, e: Event, s: Group, id: RequestId, f: Event)
    requires SinceRead(r, e, s, id) && Enabled(s, f) && !IsRead(f, id)
    ensures SinceRead(r, e, Next(s, f), id)
  {
    if id in Next(s, f).drains {
      DrainAfter(s, f, id);
    }
  }

  lemma {:induction false} RunSinceRead(r: Group, e: Event, s: Group, id: RequestId, events: seq<Event>)
    requires SinceRead(r, e, s, id) && Run(s, events, false) && NoRead(events, id)
    ensures SinceRead(r, e, Exec(s, events), id)
    decreases |events|
  {
    if events != [] {
      assert events[0] in events;
      StepSinceRead(r, e, s, id, events[0]);
      assert forall f :: f in events[1..] ==> f in events;
      RunSinceRead(r, e, Next(s, events[0]), id, events[1..]);
    }
  }

  // ---------------------------------------------------------------- what delete destroys

  /** The records that go when the request's topic is deleted. */
  ghost predicate Destroyed(s: Group, id: RequestId, tp: Partition, o: nat)
    requires id in s.drains
  {
    tp.topic == s.drains[id].topic && tp in s.ends && o < s.ends[tp]
  }

  /** Whatever goes is safe or was appended after r. */
  ghost predicate OnlyLaterDestroyed(r: Group, s: Group, disciplined: bool, id: RequestId)
    requires id in s.drains
  {
    forall tp, o: nat :: Destroyed(s, id, tp, o) ==> Safe(s, disciplined, tp, o) || Get(r.ends, tp) <= o
  }

  lemma NothingLater(r: Group, s: Group, disciplined: bool, id: RequestId, tp: Partition, o: nat)
    requires id in s.drains && OnlyLaterDestroyed(r, s, disciplined, id) && Destroyed(s, id, tp, o)
    requires Get(s.ends, tp) <= Get(r.ends, tp)
    ensures Safe(s, disciplined, tp, o)
  {
    assert Safe(s, disciplined, tp, o) || Get(r.ends, tp) <= o;
  }

  lemma DestroyedIsSafe(r: Group, e: Event, s: Group, disciplined: bool, id: RequestId, tp: Partition, o: nat)
    requires Complete(s) && Inv(s, disciplined) && SinceRead(r, e, s, id)
    requires id in s.drains && s.drains[id].Drained? && Destroyed(s, id, tp, o)
    ensures Safe(s, disciplined, tp, o) || Get(r.ends, tp) <= o
  {
    if o < Get(r.ends, tp) {
      assert tp in TopicPartitions(r, tp.topic);
      assert SafeBelow(s, disciplined, tp, s.drains[id].ends[tp]);
      assert Safe(s, disciplined, tp, o);
    }
  }

  /** What a request knows at the end of a run from its last read in r. */
  lemma ReadLasts(r: Group, e: Event, rest: seq<Event>, id: RequestId)
    requires Complete(r) && Enabled(r, e) && IsRead(e, id)
    requires Run(Next(r, e), rest, false) && NoRead(rest, id)
    requires id in Exec(Next(r, e), rest).drains
    ensures SinceRead(r, e, Exec(Next(r, e), rest), id)
    ensures e.DrainStart? ==> e.topic == Exec(Next(r, e), rest).drains[id].topic
  {
    ReadFixes(r, e, id);
    RunSinceRead(r, e, Next(r, e), id, rest);
    RunKeepsTopic(Next(r, e), rest, id);
  }

  /** A run that leaves a request with a drain has a last read, and splits there. */
  lemma SplitAtRead(events: seq<Event>, disciplined: bool, id: RequestId) returns (n: nat)
    requires Run(INITIAL, events, disciplined) && id in Exec(INITIAL, events).drains
    ensures n < |events| && Run(INITIAL, events[..n], disciplined)
    ensures IsRead(events[n], id) && NoRead(events[n + 1..], id)
    ensures
      var r := Exec(INITIAL, events[..n]);
      && Enabled(r, events[n]) && Run(Next(r, events[n]), events[n + 1..], false)
      && Exec(INITIAL, events) == Exec(Next(r, events[n]), events[n + 1..])
  {
    var last := LastRead(events, id);
    NothingAfterLast(events, id);
    if last == -1 {
      assert events[0..] == events;
      RunKeepsTopic(INITIAL, events, id);
    }
    n := last;
    RunSplits(INITIAL, events, n, disciplined);
    assert events[n..][0] == events[n] && events[n..][1..] == events[n + 1..];
  }

  lemma AllDestroyedAreSafe(r: Group, e: Event, s: Group, disciplined: bool, id: RequestId)
    requires Complete(s) && Inv(s, disciplined) && SinceRead(r, e, s, id)
    requires id in s.drains && s.drains[id].Drained?
    ensures OnlyLaterDestroyed(r, s, disciplined, id)
  {
    forall tp, o: nat | Destroyed(s, id, tp, o) ensures Safe(s, disciplined, tp, o) || Get(r.ends, tp) <= o {
      DestroyedIsSafe(r, e, s, disciplined, id, tp, o);
    }
  }

  /** In every run that lets a request delete its topic, take the state in which the request
      last read the end offsets (or found no topic at all).  Every record that the deletion
      destroys is safe or was appended after that read. */
  lemma DeleteDestroysOnlyLaterRecords(events: seq<Event>, disciplined: bool, id: RequestId) returns (n: nat)
    requires Run(INITIAL, events, disciplined)
    requires Enabled(Exec(INITIAL, events), DeleteTopic(id))
    ensures n < |events| && Run(INITIAL, events[..n], disciplined)
    ensures NoRead(events[n + 1..], id)
    ensures
      var (s, r) := (Exec(INITIAL, events), Exec(INITIAL, events[..n]));
      && (events[n] == DrainReadEnds(id)
          || (events[n] == DrainStart(id, s.drains[id].topic) && TopicPartitions(r, s.drains[id].topic) == {}))
      && OnlyLaterDestroyed(r, s, disciplined, id)
  {
    n := SplitAtRead(events, disciplined, id);
    RunComplete(INITIAL, events);
    RunComplete(INITIAL, events[..n]);
    RunSafe(INITIAL, events, disciplined);
    ReadLasts(Exec(INITIAL, events[..n]), events[n], events[n + 1..], id);
    AllDestroyedAreSafe(Exec(INITIAL, events[..n]), events[n], Exec(INITIAL, events), disciplined, id);
  }

  ghost predicate Quiet(events: seq<Event>, topic: Topic) {
    forall e :: e in events && e.Append? ==> e.tp.topic != topic
  }

  lemma StepWithoutAppend(s: Group, e: Event, tp: Partition)
    requires Enabled(s, e) && e != Append(tp)
    ensures Get(Next(s, e).ends, tp) <= Get(s.ends, tp)
  {
  }

  lemma {:induction false} QuietTopicStays(s: Group, events: seq<Event>, tp: Partition)
    requires Run(s, events, false) && Quiet(events, tp.topic)
    ensures Get(Exec(s, events).ends, tp) <= Get(s.ends, tp)
    decreases |events|
  {
    if events != [] {
      assert events[0] in events;
      StepWithoutAppend(s, events[0], tp);
      assert forall e :: e in events[1..] ==> e in events;
      QuietTopicStays(Next(s, events[0]), events[1..], tp);
    }
  }

  lemma StartComesAfter(history: seq<Event>, start: Event, events: seq<Event>, n: nat)
    requires n < |history|
    ensures start in (history + ([start] + events))[n + 1..]
  {
    assert (history + ([start] + events))[n + 1..][|history| - n - 1] == start;
  }

  /** From a position at or after the start of the drain on, the topic is quiet. */
  lemma QuietAfter(history: seq<Event>, start: Event, events: seq<Event>, n: nat, topic: Topic)
    requires start.DrainStart? && Quiet(events, topic) && |history| <= n <= |history + ([start] + events)|
    ensures Quiet((history + ([start] + events))[n..], topic)
  {
    var all := history + ([start] + events);
    forall e | e in all[n..] && e.Append? ensures e.tp.topic != topic {
      var i :| n <= i < |all| && all[i] == e;
      assert i > |history| && e == events[i - |history| - 1];
    }
  }

  /** Delete does not drop drained data: after any history, if the producer is stopped
      before the drain starts and the drain comes back true, deleting the topic destroys
      only records that are already safe, whatever the pool and other requests did
      meanwhile. */
  lemma StopDrainDeleteLosesNothing(
      history: seq<Event>, id: RequestId, topic: Topic, events: seq<Event>, disciplined: bool, tp: Partition, o: nat)
    requires Run(INITIAL, history + ([DrainStart(id, topic)] + events), disciplined)
    requires Quiet(events, topic)
    requires
      var s := Exec(INITIAL, history + ([DrainStart(id, topic)] + events));
      Enabled(s, DeleteTopic(id)) && s.drains[id].topic == topic && Destroyed(s, id, tp, o)
    ensures Safe(Exec(INITIAL, history + ([DrainStart(id, topic)] + events)), disciplined, tp, o)
  {
    var all := history + ([DrainStart(id, topic)] + events);
    var n := DeleteDestroysOnlyLaterRecords(all, disciplined, id);
    if n < |history| {
      StartComesAfter(history, DrainStart(id, topic), events, n);
      assert false;
    }
    RunSplits(INITIAL, all, n, disciplined);
    QuietAfter(history, DrainStart(id, topic), events, n, topic);
    QuietTopicStays(Exec(INITIAL, all[..n]), all[n..], tp);
    NothingLater(Exec(INITIAL, all[..n]), Exec(INITIAL, all), disciplined, id, tp, o);
  }

  // ---------------------------------------------------------------- wait_for_drain

  /** t comes after s: logs only grow until their topic is deleted, for good, a topic gets no
      further partitions, and what is safe stays so. */
  ghost predicate Later(s: Group, t: Group) {
    && Grows(s, t)
    && s.gone <= t.gone
    && (forall tp :: tp in t.ends && tp !in s.ends ==> TopicPartitions(s, tp.topic) == {} || tp.topic in t.gone)
    && forall tp :: tp in s.ends ==> tp.topic in t.gone || (tp in t.ends && s.ends[tp] <= t.ends[tp])
  }

  lemma StepIsLater(s: Group, e: Event)
    requires Enabled(s, e)
    ensures Later(s, Next(s, e))
  {
    StepGrows(s, e);
    if e.CreateTopic? {
      forall tp | tp in s.ends ensures tp.topic != e.topic {
        assert tp in TopicPartitions(s, tp.topic);
      }
    }
  }

  lemma LaterIsTransitive(s: Group, t: Group, u: Group)
    requires Later(s, t) && Later(t, u)
    ensures Later(s, u)
  {
    forall tp | tp in u.ends && tp !in s.ends && tp.topic !in u.gone
      ensures TopicPartitions(s, tp.topic) == {}
    {
      assert TopicPartitions(s, tp.topic) <= TopicPartitions(t, tp.topic);
    }
  }

  lemma {:induction false} RunIsLater(s: Group, events: seq<Event>)
    requires Run(s, events, false)
    ensures Later(s, Exec(s, events))
    decreases |events|
  {
    if events != [] {
      StepIsLater(s, events[0]);
      RunIsLater(Next(s, events[0]), events[1..]);
      LaterIsTransitive(s, Next(s, events[0]), Exec(s, events));
    }
  }

  /** What every reachable state keeps. */
  ghost predicate Sound(s: Group, disciplined: bool) {
    Inv(s, disciplined) && Complete(s)
  }

  lemma RunSound(s: Group, events: seq<Event>, disciplined: bool)
    requires Sound(s, disciplined) && Run(s, events, disciplined)
    ensures Sound(Exec(s, events), disciplined) && Later(s, Exec(s, events))
  {
    RunSafe(s, events, disciplined);
    RunComplete(s, events);
    RunIsLater(s, events);
  }

  lemma WithoutTopicSound(s: Group, topic: Topic, disciplined: bool)
    requires Sound(s, disciplined)
    ensures Sound(WithoutTopic(s, topic), disciplined) && Later(s, WithoutTopic(s, topic))
    ensures forall tp, o: nat :: Safe(WithoutTopic(s, topic), disciplined, tp, o) == Safe(s, disciplined, tp, o)
  {
    var t := WithoutTopic(s, topic);
    forall tp, n: nat ensures SafeBelow(t, disciplined, tp, n) == SafeBelow(s, disciplined, tp, n) {
      assert forall o: nat :: Safe(t, disciplined, tp, o) == Safe(s, disciplined, tp, o);
    }
    forall m | m in t.members ensures MemberSafe(t, disciplined, m) {
      assert MemberSafe(s, disciplined, m);
      MemberSafeWithoutTopic(s, topic, disciplined, m);
    }
    forall id | id in t.drains ensures LooksAtAll(t, t.drains[id]) {
      assert LooksAtAll(s, s.drains[id]);
      assert s.drains[id].topic == topic
        || TopicPartitions(t, s.drains[id].topic) == TopicPartitions(s, s.drains[id].topic);
    }
  }

  lemma MemberSafeWithoutTopic(s: Group, topic: Topic, disciplined: bool, m: MemberId)
    requires m in s.members && MemberSafe(s, disciplined, m)
    ensures MemberSafe(WithoutTopic(s, topic), disciplined, m)
  {
    BystanderSafe(s, WithoutTopic(s, topic), disciplined, m);
  }

  /** The cluster as the task manager sees it: every call to it takes time, and producers
      and pool members run meanwhile. */
  class Cluster {
    var group: Group
    var now: real
    ghost const disciplined: bool

    constructor (ghost disciplined: bool)
      ensures group == INITIAL && this.disciplined == disciplined
    {
      group, now := INITIAL, 0.0;
      this.disciplined := disciplined;
    }

    ghost predicate Valid()
      reads this
    {
      Sound(group, disciplined)
    }

    /** Some time passes, at least d, and others run.  This body is the quiet case; callers
        know the contract alone. */
    method Elapse(d: real)
      requires Valid() && d >= 0.0
      modifies this
      ensures now >= old(now) + d
      ensures exists events :: Run(old(group), events, disciplined) && group == Exec(old(group), events)
      ensures Valid() && Later(old(group), group)
    {
      now := now + d;
      assert Run(group, [], disciplined) && Exec(group, []) == group;
      RunSound(group, [], disciplined);
    }

    method PartitionsFor(topic: Topic) returns (partitions: set<Partition>)
      requires Valid()
      modifies this
      ensures Valid() && now >= old(now) && Later(old(group), group)
      ensures partitions == TopicPartitions(group, topic)
    {
      Elapse(0.0);
      partitions := TopicPartitions(group, topic);
    }

    method EndOffsets(partitions: set<Partition>) returns (ends: map<Partition, nat>)
      requires Valid()
      modifies this
      ensures Valid() && now >= old(now) && Later(old(group), group)
      ensures ends.Keys == partitions
      ensures forall tp :: tp in partitions ==> ends[tp] == Get(group.ends, tp)
    {
      Elapse(0.0);
      ends := map tp | tp in partitions :: Get(group.ends, tp);
    }

    method CommittedOffsets(partitions: set<Partition>) returns (committed: map<Partition, nat>)
      requires Valid()
      modifies this
      ensures Valid() && now >= old(now) && Later(old(group), group)
      ensures committed.Keys == partitions * group.committed.Keys
      ensures forall tp :: tp in committed ==> committed[tp] == group.committed[tp]
    {
      Elapse(0.0);
      committed := map tp | tp in partitions && tp in group.committed :: group.committed[tp];
    }

    /** `before` is the state in which the topic goes.  A call that raises may have been
        applied. */
    method DeleteTopic(topic: Topic) returns (ok: bool, ghost before: Group)
      requires Valid()
      modifies this
      ensures Valid() && now >= old(now) && Later(old(group), before) && Sound(before, disciplined)
      ensures group == WithoutTopic(before, topic) || (!ok && group == before)
    {
      Elapse(0.0);
      before := group;
      var applied: bool := *;
      ok := *;
      if ok || applied {
        WithoutTopicSound(group, topic, disciplined);
        group := WithoutTopic(group, topic);
      }
    }
  }

  /** The last poll of a drain: the state in which it read the end offsets, and when, and the
      later one in which it read the committed offsets. */
  datatype Poll = Poll(read: Group, readAt: real, seen: Group)

  /** These are the end offsets of all the topic in s. */
  ghost predicate AreEnds(s: Group, topic: Topic, ends: map<Partition, nat>) {
    && TopicPartitions(s, topic) <= ends.Keys
    && forall tp :: tp in ends ==> ends[tp] == Get(s.ends, tp)
  }

  /** Polls until the pool has committed past the end of every partition or the deadline has
      passed.  The answer is that of the last poll, which reads everything anew: it comes
      after as many seconds as there were polls before it, its end offsets are those of all
      the topic, and it is true exactly if the offsets committed by then have reached them.
      Then everything below them is safe; false means that the deadline has passed; and the
      loop polls less than timeout + 2 times. */
  method WaitForDrain(cluster: Cluster, topic: Topic, timeout: real)
      returns (drained: bool, polls: nat, ends: map<Partition, nat>, ghost poll: Poll)
    requires cluster.Valid()
    requires timeout >= 0.0
    modifies cluster
    ensures cluster.Valid()
    ensures Later(old(cluster.group), poll.read) && Later(poll.read, poll.seen) && Later(poll.seen, cluster.group)
    ensures old(cluster.now) + polls as real - 1.0 <= poll.readAt <= cluster.now
    ensures AreEnds(poll.read, topic, ends)
    ensures drained <==>
      forall tp :: tp in ends ==> ends[tp] == 0 || (tp in poll.seen.committed && ends[tp] <= poll.seen.committed[tp])
    ensures drained ==>
      forall tp :: tp in ends ==> SafeBelow(cluster.group, cluster.disciplined, tp, ends[tp])
    ensures !drained ==> cluster.now >= old(cluster.now) + timeout
    ensures polls as real < timeout + 2.0
  {
    hide Later, Sound, SafeBelow, AreEnds;
    drained, polls, ends := false, 0, map[];
    var partitions := cluster.PartitionsFor(topic);
    poll := Poll(cluster.group, cluster.now, cluster.group);
    LaterIsReflexive(cluster.group);
    if partitions == {} {
      NoPartitions(cluster.group, topic);
      return true, 0, map[], poll;
    }
    var started := cluster.now;
    var deadline := started + timeout;
    while true
      invariant cluster.Valid()
      invariant cluster.now >= started + polls as real
      invariant started >= old(cluster.now)
      invariant Later(old(cluster.group), cluster.group)
      invariant topic in cluster.group.gone || TopicPartitions(cluster.group, topic) == partitions
      invariant polls > 0 ==> polls as real < timeout + 1.0
      invariant polls as real - 1.0 < timeout
      decreases (timeout + 2.0 - polls as real).Floor
    {
      ghost var was := cluster.group;
      ends := cluster.EndOffsets(partitions);
      poll := Poll(cluster.group, cluster.now, cluster.group);
      StillAll(old(cluster.group), was, poll.read, topic, partitions);
      EndsAreAll(poll.read, cluster.disciplined, topic, partitions, ends);
      var committed := cluster.CommittedOffsets(partitions);
      poll := poll.(seen := cluster.group);
      polls := polls + 1;
      StillAll(old(cluster.group), poll.read, poll.seen, topic, partitions);
      LaterIsReflexive(poll.seen);
      if forall tp | tp in partitions :: ends[tp] <= Get(committed, tp) {
        DrainedIsSafe(cluster.group, cluster.disciplined, ends, committed);
        return true, polls, ends, poll;
      }
      if cluster.now >= deadline {
        return false, polls, ends, poll;
      }
      was := cluster.group;
      cluster.Elapse(1.0);
      StillAll(old(cluster.group), was, cluster.group, topic, partitions);
    }
  }

  lemma LaterIsReflexive(s: Group)
    ensures Later(s, s)
  {
  }

  lemma NoPartitions(s: Group, topic: Topic)
    requires TopicPartitions(s, topic) == {}
    ensures AreEnds(s, topic, map[])
  {
  }

  /** The topic keeps its partitions, short of a deletion. */
  lemma StillAll(s: Group, t: Group, u: Group, topic: Topic, partitions: set<Partition>)
    requires Later(s, t) && Later(t, u) && partitions != {}
    requires topic in t.gone || TopicPartitions(t, topic) == partitions
    ensures Later(s, u)
    ensures topic in u.gone || TopicPartitions(u, topic) == partitions
  {
    LaterIsTransitive(s, t, u);
    if topic !in u.gone {
      assert TopicPartitions(t, topic) <= TopicPartitions(u, topic);
      forall tp | tp in TopicPartitions(u, topic) ensures tp in partitions {
        assert tp.topic == topic;
      }
    }
  }

  lemma EndsAreAll(s: Group, disciplined: bool, topic: Topic, partitions: set<Partition>, ends: map<Partition, nat>)
    requires Sound(s, disciplined)
    requires topic in s.gone || TopicPartitions(s, topic) == partitions
    requires ends.Keys == partitions && forall tp :: tp in partitions ==> ends[tp] == Get(s.ends, tp)
    ensures AreEnds(s, topic, ends)
  {
  }

  lemma DrainedIsSafe(s: Group, disciplined: bool, ends: map<Partition, nat>, committed: map<Partition, nat>)
    requires Sound(s, disciplined)
    requires forall tp :: tp in committed ==> tp in s.committed && committed[tp] == s.committed[tp]
    requires forall tp :: tp in ends ==> ends[tp] <= Get(committed, tp)
    ensures forall tp :: tp in ends ==> SafeBelow(s, disciplined, tp, ends[tp])
  {
    forall tp | tp in ends ensures SafeBelow(s, disciplined, tp, ends[tp]) {
      if tp in committed {
        assert SafeBelow(s, disciplined, tp, s.committed[tp]);
      }
    }
  }

  // ---------------------------------------------------------------- drain, then delete

  /** Whatever of the topic went is safe, or was appended after the read. */
  ghost predicate OnlySafeGone(read: Group, before: Group, after: Group, topic: Topic, disciplined: bool) {
    forall tp: Partition, o: nat :: tp.topic == topic && o < Get(before.ends, tp) ==>
      Safe(after, disciplined, tp, o) || Get(read.ends, tp) <= o
  }

  lemma DrainedTopicGoes(read: Group, drained: Group, before: Group, topic: Topic, ends: map<Partition, nat>,
                         disciplined: bool)
    requires Sound(before, disciplined) && Later(drained, before)
    requires forall tp :: tp in ends ==> SafeBelow(drained, disciplined, tp, ends[tp])
    requires AreEnds(read, topic, ends)
    ensures OnlySafeGone(read, before, WithoutTopic(before, topic), topic, disciplined)
  {
    WithoutTopicSound(before, topic, disciplined);
    forall tp: Partition, o: nat | tp.topic == topic && o < Get(before.ends, tp)
      ensures Safe(WithoutTopic(before, topic), disciplined, tp, o) || Get(read.ends, tp) <= o
    {
      if o < Get(read.ends, tp) {
        assert tp in TopicPartitions(read, topic);
        SafeStays(drained, before, disciplined, tp, ends[tp]);
        assert Safe(before, disciplined, tp, o);
      }
    }
  }
}

/** What the delivery protocol keeps in every run: nothing below a committed offset is
    lost, except batches the code itself skips and then fetches past. */
module DeliverySafety {
  import opened Delivery

  // ---------------------------------------------------------------- safety only grows

  ghost predicate Grows(s: Group, t: Group) {
    && s.tabled <= t.tabled
    && s.dlq <= t.dlq
    && s.skipped <= t.skipped
    && (forall tp :: Get(s.starts, tp) <= Get(t.starts, tp))
  }

  lemma StepGrows(s: Group, e: Event)
    requires Enabled(s, e)
    ensures Grows(s, Next(s, e))
  {
  }

  lemma SafeStays(s: Group, t: Group, strict: bool, tp: Partition, n: nat)
    requires Grows(s, t) && SafeBelow(s, strict, tp, n)
    ensures SafeBelow(t, strict, tp, n)
  {
    forall o: nat | o < n
      ensures Safe(t, strict, tp, o)
    {
      assert Safe(s, strict, tp, o);
    }
  }

  /** A member that did not act, and has no fewer open gaps, stays safe. */
  lemma BystanderSafe(s: Group, t: Group, strict: bool, m: MemberId)
    requires Grows(s, t)
    requires m in s.members && m in t.members && t.members[m] == s.members[m]
    requires forall tp :: (m, tp) in s.open ==> (m, tp) in t.open
    requires MemberSafe(s, strict, m)
    ensures MemberSafe(t, strict, m)
  {
    var me := s.members[m];
    forall tp, o: nat | tp in me.assignment && tp in me.position && !(strict && (m, tp) in t.open)
      && o < me.position[tp]
      ensures Safe(t, strict, tp, o) || InHand(me, tp, o)
    {
      assert Safe(s, strict, tp, o) || InHand(me, tp, o);
    }
    forall r | r in me.hand
      ensures SafeBelow(t, strict, r.tp, r.lo)
    {
      SafeStays(s, t, strict, r.tp, r.lo);
    }
    forall tp | tp in me.offsets
      ensures SafeBelow(t, strict, tp, me.offsets[tp])
    {
      SafeStays(s, t, strict, tp, me.offsets[tp]);
    }
  }

  ghost predicate Actor(e: Event, m: MemberId) {
    match e
    case Join(n) => n == m
    case Crash(n) => n == m
    case Reassign(n, _) => n == m
    case Fetch(n, _) => n == m
    case Begin(n) => n == m
    case PassOver(n) => n == m
    case NoConfig(n) => n == m
    case Write(n, _, _) => n == m
    case WriteFails(n, _, _) => n == m
    case Commit(n, _) => n == m
    case _ => false
  }

  lemma {:induction false} FetchedTo(batch: seq<Range>, tp: Partition, current: nat)
    requires DistinctPartitions(batch)
    ensures forall r :: r in batch && r.tp == tp ==> NewPosition(batch, tp, current) == r.hi
    ensures tp !in PartitionsOf(batch) ==> NewPosition(batch, tp, current) == current
  {
    if batch != [] && batch[0].tp != tp {
      FetchedTo(batch[1..], tp, current);
    }
  }

  // ---------------------------------------------------------------- each event keeps it

  lemma FetchSafe(s: Group, strict: bool, m: MemberId, batch: seq<Range>)
    requires Enabled(s, Fetch(m, batch)) && MemberSafe(s, strict, m)
    requires strict ==> NoGapFetched(s, Fetch(m, batch))
    ensures MemberSafe(Next(s, Fetch(m, batch)), strict, m)
  {
    var me, t := s.members[m], Next(s, Fetch(m, batch));
    var you := t.members[m];
    forall r | r in batch
      ensures SafeBelow(t, strict, r.tp, r.lo)
    {
      forall o: nat | o < r.lo
        ensures Safe(t, strict, r.tp, o)
      {
        assert o < Get(s.starts, r.tp) || o < me.position[r.tp];
        assert !InHand(me, r.tp, o);
        assert Safe(s, strict, r.tp, o);
      }
    }
    forall tp, o: nat | tp in you.assignment && tp in you.position && !(strict && (m, tp) in t.open)
      && o < you.position[tp]
      ensures Safe(t, strict, tp, o) || InHand(you, tp, o)
    {
      FetchedTo(batch, tp, me.position[tp]);
      if tp in PartitionsOf(batch) {
        var r :| r in batch && r.tp == tp;
        if o < r.lo {
          assert Safe(t, strict, tp, o);
        } else {
          assert Covers(r, tp, o);
        }
      } else {
        assert Safe(s, strict, tp, o) || InHand(me, tp, o);
      }
    }
    forall tp | tp in you.offsets
      ensures SafeBelow(t, strict, tp, you.offsets[tp])
    {
      SafeStays(s, t, strict, tp, you.offsets[tp]);
    }
  }

  lemma ReassignSafe(s: Group, strict: bool, m: MemberId, tps: set<Partition>)
    requires Enabled(s, Reassign(m, tps)) && MemberSafe(s, strict, m) && CommittedSafe(s, strict)
    ensures MemberSafe(Next(s, Reassign(m, tps)), strict, m)
  {
    var me, t := s.members[m], Next(s, Reassign(m, tps));
    forall tp, o: nat | tp in tps && o < ResetPosition(s, tp)
      ensures Safe(t, strict, tp, o)
    {
      if tp in s.committed {
        assert SafeBelow(s, strict, tp, s.committed[tp]);
        assert Safe(s, strict, tp, o);
      }
    }
    forall r | r in me.hand
      ensures SafeBelow(t, strict, r.tp, r.lo)
    {
      SafeStays(s, t, strict, r.tp, r.lo);
    }
    forall tp | tp in me.offsets
      ensures SafeBelow(t, strict, tp, me.offsets[tp])
    {
      SafeStays(s, t, strict, tp, me.offsets[tp]);
    }
  }

  /** The four events that take the first range out of the hand. */
  lemma HandleSafe(s: Group, strict: bool, m: MemberId, e: Event)
    requires e.PassOver? || e.NoConfig? || e.Write? || e.WriteFails?
    requires e.m == m && Enabled(s, e) && MemberSafe(s, strict, m)
    ensures MemberSafe(Next(s, e), strict, m)
  {
    var me, t := s.members[m], Next(s, e);
    var you, head := t.members[m], Head(s, m);
    StepGrows(s, e);
    forall r | r in you.hand
      ensures SafeBelow(t, strict, r.tp, r.lo)
    {
      assert r in me.hand;
      SafeStays(s, t, strict, r.tp, r.lo);
    }
    forall tp, o: nat | tp in you.assignment && tp in you.position && !(strict && (m, tp) in t.open)
      && o < you.position[tp]
      ensures Safe(t, strict, tp, o) || InHand(you, tp, o)
    {
      assert Safe(s, strict, tp, o) || InHand(me, tp, o);
      if !Safe(s, strict, tp, o) {
        var r :| r in me.hand && Covers(r, tp, o);
        HandledRange(s, strict, m, e, r, o);
      } else if Skipped(s, tp, o) {
        var r :| r in s.skipped && Covers(r, tp, o);
        assert r in t.skipped;
      }
    }
    forall tp | tp in you.offsets
      ensures SafeBelow(t, strict, tp, you.offsets[tp])
    {
      if e.Write? && tp == head.tp {
        WrittenRange(s, strict, m, e);
      } else {
        SafeStays(s, t, strict, tp, me.offsets[tp]);
      }
    }
  }

  lemma WrittenRange(s: Group, strict: bool, m: MemberId, e: Event)
    requires e.Write? && e.m == m && Enabled(s, e) && MemberSafe(s, strict, m)
    ensures SafeBelow(Next(s, e), strict, Head(s, m).tp, Head(s, m).hi)
  {
    var t, head := Next(s, e), Head(s, m);
    forall o: nat | o < head.hi
      ensures Safe(t, strict, head.tp, o)
    {
      if o < head.lo {
        assert head in s.members[m].hand;
        StepGrows(s, e);
        SafeStays(s, t, strict, head.tp, head.lo);
      } else {
        assert Covers(head, head.tp, o);
        assert o in e.toTable || o in e.toDlq;
      }
    }
  }

  /** A range that was in the hand is, after the event, still there, written, or skipped
      with its partition marked open. */
  lemma HandledRange(s: Group, strict: bool, m: MemberId, e: Event, r: Range, o: nat)
    requires e.PassOver? || e.NoConfig? || e.Write? || e.WriteFails?
    requires e.m == m && Enabled(s, e) && MemberSafe(s, strict, m)
    requires r in s.members[m].hand && Covers(r, r.tp, o) && r.tp in s.members[m].assignment
    requires !(strict && (m, r.tp) in Next(s, e).open)
    ensures Safe(Next(s, e), strict, r.tp, o) || InHand(Next(s, e).members[m], r.tp, o)
  {
    var me, t := s.members[m], Next(s, e);
    if e.WriteFails? {
      assert r.tp in PartitionsOf(me.hand);
      assert r in t.skipped;
    } else if r == me.hand[0] {
      if e.Write? {
        WrittenRange(s, strict, m, e);
      } else {
        assert r in t.skipped;
      }
    } else {
      assert r in me.hand[1..];
    }
  }

  lemma ActorSafe(s: Group, strict: bool, e: Event, m: MemberId)
    requires Inv(s, strict) && Enabled(s, e) && (strict ==> NoGapFetched(s, e))
    requires Actor(e, m) && m in Next(s, e).members
    ensures MemberSafe(Next(s, e), strict, m)
  {
    match e
    case Fetch(_, batch) => FetchSafe(s, strict, m, batch);
    case Reassign(_, tps) => ReassignSafe(s, strict, m, tps);
    case PassOver(_) => HandleSafe(s, strict, m, e);
    case NoConfig(_) => HandleSafe(s, strict, m, e);
    case Write(_, _, _) => HandleSafe(s, strict, m, e);
    case WriteFails(_, _, _) => HandleSafe(s, strict, m, e);
    case Begin(_) => HandUntouched(s, strict, e, m);
    case Commit(_, _) => HandUntouched(s, strict, e, m);
    case _ =>
  }

  lemma HandUntouched(s: Group, strict: bool, e: Event, m: MemberId)
    requires e.Begin? || e.Commit?
    requires e.m == m && Enabled(s, e) && MemberSafe(s, strict, m)
    ensures MemberSafe(Next(s, e), strict, m)
  {
    var me, t := s.members[m], Next(s, e);
    forall tp, o: nat | tp in me.assignment && tp in me.position && !(strict && (m, tp) in t.open)
      && o < me.position[tp]
      ensures Safe(t, strict, tp, o) || InHand(t.members[m], tp, o)
    {
      assert Safe(s, strict, tp, o) || InHand(me, tp, o);
      if Skipped(s, tp, o) {
        assert Skipped(t, tp, o);
      }
    }
    forall r | r in me.hand
      ensures SafeBelow(t, strict, r.tp, r.lo)
    {
      SafeStays(s, t, strict, r.tp, r.lo);
    }
  }

  lemma CommittedStaysSafe(s: Group, strict: bool, e: Event)
    requires Inv(s, strict) && Enabled(s, e)
    ensures CommittedSafe(Next(s, e), strict)
  {
    var t := Next(s, e);
    StepGrows(s, e);
    forall tp | tp in t.committed
      ensures SafeBelow(t, strict, tp, t.committed[tp])
    {
      if e.Commit? && e.accepted && tp in s.members[e.m].offsets {
        assert MemberSafe(s, strict, e.m);
        SafeStays(s, t, strict, tp, s.members[e.m].offsets[tp]);
      } else {
        SafeStays(s, t, strict, tp, s.committed[tp]);
      }
    }
  }

  /** A drain that has just come back true covers committed offsets only. */
  lemma JustDrained(s: Group, strict: bool, id: RequestId, tp: Partition)
    requires CommittedSafe(s, strict) && Enabled(s, DrainReadCommitted(id))
    requires CommittedPast(s, s.drains[id].ends) && tp in s.drains[id].ends
    ensures SafeBelow(s, strict, tp, s.drains[id].ends[tp])
  {
    if tp in s.committed {
      assert SafeBelow(s, strict, tp, s.committed[tp]);
    }
  }

  lemma DrainsStaySafe(s: Group, strict: bool, e: Event)
    requires Inv(s, strict) && Enabled(s, e)
    ensures DrainsSafe(Next(s, e), strict)
  {
    var t := Next(s, e);
    StepGrows(s, e);
    forall id, tp | id in t.drains && t.drains[id].Drained? && tp in t.drains[id].ends
      ensures SafeBelow(t, strict, tp, t.drains[id].ends[tp])
    {
      if e.DrainReadCommitted? && id == e.id {
        JustDrained(s, strict, id, tp);
      }
      SafeStays(s, t, strict, tp, t.drains[id].ends[tp]);
    }
  }

  lemma StepSafe(s: Group, strict: bool, e: Event)
    requires Inv(s, strict) && Enabled(s, e) && (strict ==> NoGapFetched(s, e))
    ensures Inv(Next(s, e), strict)
  {
    var t := Next(s, e);
    StepGrows(s, e);
    CommittedStaysSafe(s, strict, e);
    DrainsStaySafe(s, strict, e);
    forall m | m in t.members
      ensures MemberSafe(t, strict, m)
    {
      if Actor(e, m) {
        ActorSafe(s, strict, e, m);
      } else {
        assert m in s.members && t.members[m] == s.members[m];
        BystanderSafe(s, t, strict, m);
      }
    }
  }

  lemma {:induction false} RunSafe(s: Group, events: seq<Event>, strict: bool)
    requires Inv(s, strict) && Run(s, events, strict)
    ensures Inv(Exec(s, events), strict)
    decreases |events|
  {
    if events != [] {
      StepSafe(s, strict, events[0]);
      RunSafe(Next(s, events[0]), events[1..], strict);
    }
  }

  // ---------------------------------------------------------------- main results

  /** In every run of any number of members and partitions, with crashes, rebalances,
      failed writes and rejected commits in any order, each retained record below a
      committed offset is in a table or in the dead-letter table, or was in a batch the
      code skipped. */
  lemma NothingElseIsLost(events: seq<Event>, tp: Partition, o: nat)
    requires Run(INITIAL, events, false)
    requires tp in Exec(INITIAL, events).committed && o < Exec(INITIAL, events).committed[tp]
    ensures
      var s := Exec(INITIAL, events);
      Delivered(s, tp, o) || o < Get(s.starts, tp) || Skipped(s, tp, o)
  {
    RunSafe(INITIAL, events, false);
    var s := Exec(INITIAL, events);
    assert SafeBelow(s, false, tp, s.committed[tp]);
    assert Safe(s, false, tp, o);
  }

  /** At-least-once: when every skipped batch is followed by a crash or a reassignment
      before that member fetches the partition again, everything retained below a
      committed offset was delivered. */
  lemma AtLeastOnce(events: seq<Event>, tp: Partition, o: nat)
    requires Run(INITIAL, events, true)
    requires tp in Exec(INITIAL, events).committed && o < Exec(INITIAL, events).committed[tp]
    ensures Delivered(Exec(INITIAL, events), tp, o) || o < Get(Exec(INITIAL, events).starts, tp)
  {
    RunSafe(INITIAL, events, true);
    var s := Exec(INITIAL, events);
    assert SafeBelow(s, true, tp, s.committed[tp]);
    assert Safe(s, true, tp, o);
  }

  // ---------------------------------------------------------------- the gap

  /** m is between batches, owns tp, and has moved past a retained record that nobody has
      delivered, with a further record still to come. */
  ghost predicate PastGap(s: Group, m: MemberId, tp: Partition, o: nat) {
    && m in s.members && !s.members[m].locked && s.members[m].hand == []
    && tp in s.members[m].assignment && tp in s.members[m].position
    && tp in s.owner && s.owner[tp] == m
    && tp in s.ends && FetchFrom(s, s.members[m], tp) < s.ends[tp]
    && Get(s.starts, tp) <= o < s.members[m].position[tp]
    && !Delivered(s, tp, o)
  }

  lemma HeadOfConcatenation(first: seq<Event>, second: seq<Event>)
    requires first != []
    ensures first + second == [first[0]] + (first[1..] + second)
  {
  }

  lemma RunStarts(s: Group, e: Event, later: seq<Event>, events: seq<Event>, disciplined: bool)
    requires Enabled(s, e) && Run(Next(s, e), later, disciplined) && (disciplined ==> NoGapFetched(s, e))
    requires events == [e] + later
    ensures Run(s, events, disciplined)
    ensures Exec(s, events) == Exec(Next(s, e), later)
  {
    assert events[0] == e && events[1..] == later;
  }

  lemma {:induction false} RunsConcatenate(s: Group, first: seq<Event>, second: seq<Event>, disciplined: bool)
    requires Run(s, first, disciplined) && Run(Exec(s, first), second, disciplined)
    ensures Run(s, first + second, disciplined)
    ensures Exec(s, first + second) == Exec(Exec(s, first), second)
    decreases |first|
  {
    if first == [] {
      assert first + second == second;
    } else {
      RunsConcatenate(Next(s, first[0]), first[1..], second, disciplined);
      HeadOfConcatenation(first, second);
      RunStarts(s, first[0], first[1..] + second, first + second, disciplined);
    }
  }

  lemma TakeAndDrop(events: seq<Event>, n: nat)
    requires 0 < n <= |events|
    ensures events[..n] == [events[0]] + events[1..][..n - 1]
    ensures events[n..] == events[1..][n - 1..]
  {
  }

  lemma {:induction false} RunSplits(s: Group, events: seq<Event>, n: nat, disciplined: bool)
    requires Run(s, events, disciplined) && n <= |events|
    ensures Run(s, events[..n], disciplined)
    ensures Run(Exec(s, events[..n]), events[n..], disciplined)
    ensures Exec(s, events) == Exec(Exec(s, events[..n]), events[n..])
    decreases n
  {
    hide Enabled, Next, NoGapFetched;
    if n == 0 {
      assert events[..0] == [] && events[0..] == events;
    } else {
      RunSplits(Next(s, events[0]), events[1..], n - 1, disciplined);
      TakeAndDrop(events, n);
      RunStarts(s, events[0], events[1..][..n - 1], events[..n], disciplined);
    }
  }

  lemma Then(s: Group, events: seq<Event>, e: Event)
    requires Run(s, events, false) && Enabled(Exec(s, events), e)
    ensures Run(s, events + [e], false)
    ensures Exec(s, events + [e]) == Next(Exec(s, events), e)
  {
    var t := Exec(s, events);
    assert [e][1..] == [];
    assert Run(Next(t, e), [], false) && Exec(Next(t, e), []) == Next(t, e);
    assert Run(t, [e], false) && Exec(t, [e]) == Next(t, e);
    RunsConcatenate(s, events, [e], false);
  }

  /** m fetches one record of tp and is about to handle it. */
  lemma FetchOne(s: Group, m: MemberId, tp: Partition) returns (events: seq<Event>)
    requires m in s.members && !s.members[m].locked && s.members[m].hand == []
    requires tp in s.members[m].assignment && tp in s.members[m].position
    requires tp in s.ends && FetchFrom(s, s.members[m], tp) < s.ends[tp]
    ensures |events| == 2 && events[0].Fetch? && events[1] == Begin(m)
    ensures Run(s, events, false)
    ensures
      var t, at := Exec(s, events), FetchFrom(s, s.members[m], tp);
      && t == s.(members := t.members)
      && m in t.members
      && t.members[m] == Member(s.members[m].assignment, s.members[m].position[tp := at + 1],
                                [Range(tp, at, at + 1)], true, map[])
  {
    var at := FetchFrom(s, s.members[m], tp);
    var batch := [Range(tp, at, at + 1)];
    assert Enabled(s, Fetch(m, batch));
    Then(s, [], Fetch(m, batch));
    var s1 := Next(s, Fetch(m, batch));
    forall x, c: nat
      ensures NewPosition(batch, x, c) == if x == tp then at + 1 else c
    {
      FetchedTo(batch, x, c);
      assert batch[0] in batch;
    }
    assert s1.members[m].position == s.members[m].position[tp := at + 1];
    Then(s, [] + [Fetch(m, batch)], Begin(m));
    events := [] + [Fetch(m, batch)] + [Begin(m)];
  }

  /** The one record in hand is written and committed. */
  lemma WriteOne(s: Group, m: MemberId, tp: Partition, at: nat) returns (events: seq<Event>)
    requires m in s.members && s.members[m].locked && s.members[m].offsets == map[]
    requires s.members[m].hand == [Range(tp, at, at + 1)]
    requires tp in s.members[m].assignment && tp in s.owner && s.owner[tp] == m
    ensures Run(s, events, false)
    ensures
      var t := Exec(s, events);
      && t.committed == s.committed[tp := at + 1]
      && t.tabled == s.tabled + {Record(tp, at)} && t.dlq == s.dlq
      && t.starts == s.starts
  {
    var write := Write(m, {at}, {});
    assert Enabled(s, write);
    Then(s, [], write);
    var s1 := Next(s, write);
    assert Records(tp, {at}) == {Record(tp, at)};
    assert s1.members[m].offsets == map[tp := at + 1];
    assert tp in OwnedBy(s1.owner, m);
    Then(s, [] + [write], Commit(m, true));
    events := [] + [write] + [Commit(m, true)];
  }

  /** ... or its write fails, and nothing is committed. */
  lemma FailOne(s: Group, m: MemberId, tp: Partition, at: nat) returns (events: seq<Event>)
    requires m in s.members && s.members[m].locked
    requires s.members[m].hand == [Range(tp, at, at + 1)]
    requires tp in s.members[m].assignment
    ensures events == [WriteFails(m, {}, {}), Commit(m, false)]
    ensures Run(s, events, false)
    ensures
      var t := Exec(s, events);
      && t == s.(members := t.members, skipped := t.skipped, open := t.open)
      && m in t.members
      && t.members[m] == s.members[m].(hand := [], locked := false, offsets := map[])
  {
    var fails := WriteFails(m, {}, {});
    assert Enabled(s, fails);
    Then(s, [], fails);
    assert Records(tp, {}) == {};
    Then(s, [] + [fails], Commit(m, false));
    events := [] + [fails] + [Commit(m, false)];
  }

  /** ... or its topic has no config: the same, but for the records themselves. */
  lemma SkipOne(s: Group, m: MemberId, tp: Partition, at: nat) returns (events: seq<Event>)
    requires m in s.members && s.members[m].locked
    requires s.members[m].hand == [Range(tp, at, at + 1)]
    requires tp in s.members[m].assignment
    ensures events == [NoConfig(m), Commit(m, false)]
    ensures Run(s, events, false)
    ensures
      var t := Exec(s, events);
      && t == s.(members := t.members, skipped := t.skipped, open := t.open)
      && m in t.members
      && t.members[m] == s.members[m].(hand := [], locked := false, offsets := map[])
  {
    assert Enabled(s, NoConfig(m));
    Then(s, [], NoConfig(m));
    Then(s, [] + [NoConfig(m)], Commit(m, false));
    events := [] + [NoConfig(m)] + [Commit(m, false)];
  }

  /** The discipline is needed: from every state with such a gap, one more successful batch
      commits past the undelivered record. */
  lemma GapIsLost(s: Group, m: MemberId, tp: Partition, o: nat) returns (events: seq<Event>)
    requires PastGap(s, m, tp, o)
    ensures Run(s, events, false)
    ensures
      var t := Exec(s, events);
      && tp in t.committed && o < t.committed[tp]
      && !Delivered(t, tp, o)
      && t.starts == s.starts
  {
    var fetch := FetchOne(s, m, tp);
    var write := WriteOne(Exec(s, fetch), m, tp, FetchFrom(s, s.members[m], tp));
    RunsConcatenate(s, fetch, write, false);
    events := fetch + write;
  }

  /** A failed write opens a gap: the running member is past the batch it did not write. */
  lemma FailedWriteOpensGap(s: Group, m: MemberId, tp: Partition) returns (events: seq<Event>)
    requires m in s.members && !s.members[m].locked && s.members[m].hand == []
    requires tp in s.members[m].assignment && tp in s.members[m].position
    requires tp in s.owner && s.owner[tp] == m
    requires tp in s.ends && FetchFrom(s, s.members[m], tp) + 1 < s.ends[tp]
    requires !Delivered(s, tp, FetchFrom(s, s.members[m], tp))
    ensures |events| == 4 && events[2..] == [WriteFails(m, {}, {}), Commit(m, false)]
    ensures Run(s, events, false)
    ensures Exec(s, events).starts == s.starts
    ensures PastGap(Exec(s, events), m, tp, FetchFrom(s, s.members[m], tp))
  {
    var fetch := FetchOne(s, m, tp);
    var fail := FailOne(Exec(s, fetch), m, tp, FetchFrom(s, s.members[m], tp));
    RunsConcatenate(s, fetch, fail, false);
    events := fetch + fail;
  }

  /** ... and so does a missing config: the offsets of the batch stay uncommitted, but the
      position has moved on. */
  lemma MissingConfigOpensGap(s: Group, m: MemberId, tp: Partition) returns (events: seq<Event>)
    requires m in s.members && !s.members[m].locked && s.members[m].hand == []
    requires tp in s.members[m].assignment && tp in s.members[m].position
    requires tp in s.owner && s.owner[tp] == m
    requires tp in s.ends && FetchFrom(s, s.members[m], tp) + 1 < s.ends[tp]
    requires !Delivered(s, tp, FetchFrom(s, s.members[m], tp))
    ensures |events| == 4 && events[2..] == [NoConfig(m), Commit(m, false)]
    ensures Run(s, events, false)
    ensures Exec(s, events).starts == s.starts
    ensures PastGap(Exec(s, events), m, tp, FetchFrom(s, s.members[m], tp))
  {
    var fetch := FetchOne(s, m, tp);
    var skip := SkipOne(Exec(s, fetch), m, tp, FetchFrom(s, s.members[m], tp));
    RunsConcatenate(s, fetch, skip, false);
    events := fetch + skip;
  }

  lemma TwoRecordsOneMember(tp: Partition) returns (events: seq<Event>)
    ensures forall e :: e in events ==> e.CreateTopic? || e.Append? || e.Join? || e.Reassign?
    ensures Run(INITIAL, events, false)
    ensures Exec(INITIAL, events) ==
      INITIAL.(ends := map[tp := 2], owner := map[tp := 0],
               members := map[0 := Member({tp}, map[tp := 0], [], false, map[])])
  {
    var create := CreateTopic(tp.topic, {tp});
    Then(INITIAL, [], create);
    var e0 := [] + [create];
    assert Exec(INITIAL, e0).ends == map[tp := 0];
    Then(INITIAL, e0, Append(tp));
    var e1 := e0 + [Append(tp)];
    assert Exec(INITIAL, e1).ends == map[tp := 1];
    Then(INITIAL, e1, Append(tp));
    var e2 := e1 + [Append(tp)];
    assert Exec(INITIAL, e2).ends == map[tp := 2];
    OwnerJoins(tp, e2);
    events := e2 + [Join(0)] + [Reassign(0, {tp})];
  }

  lemma OwnerJoins(tp: Partition, events: seq<Event>)
    requires Run(INITIAL, events, false) && Exec(INITIAL, events) == INITIAL.(ends := map[tp := 2])
    ensures Run(INITIAL, events + [Join(0)] + [Reassign(0, {tp})], false)
    ensures Exec(INITIAL, events + [Join(0)] + [Reassign(0, {tp})]) ==
      INITIAL.(ends := map[tp := 2], owner := map[tp := 0],
               members := map[0 := Member({tp}, map[tp := 0], [], false, map[])])
  {
    Then(INITIAL, events, Join(0));
    FirstAssignment(INITIAL.(ends := map[tp := 2], members := map[0 := FRESH]), tp);
    Then(INITIAL, events + [Join(0)], Reassign(0, {tp}));
  }

  lemma FirstAssignment(s: Group, tp: Partition)
    requires s == INITIAL.(ends := map[tp := 2], members := map[0 := FRESH])
    ensures Enabled(s, Reassign(0, {tp}))
    ensures Next(s, Reassign(0, {tp})) ==
      s.(owner := map[tp := 0], members := map[0 := Member({tp}, map[tp := 0], [], false, map[])])
  {
    var t := Next(s, Reassign(0, {tp}));
    assert t.owner == map[tp := 0];
    assert t.open == {};
    assert t.members[0].position == map[tp := 0];
  }

  /** One failed write is enough: offset 0 ends up below the committed offset without being
      written anywhere, so "re-read when it's back" does not hold of the running member. */
  lemma UnconditionalClaimFails(tp: Partition) returns (events: seq<Event>)
    ensures Run(INITIAL, events, false)
    ensures
      var s := Exec(INITIAL, events);
      && tp in s.committed && 0 < s.committed[tp]
      && Get(s.starts, tp) == 0
      && !Delivered(s, tp, 0)
  {
    events := TwoRecordsOneMember(tp);
    var gap := FailedWriteOpensGap(Exec(INITIAL, events), 0, tp);
    RunsConcatenate(INITIAL, events, gap, false);
    events := events + gap;
    var lose := GapIsLost(Exec(INITIAL, events), 0, tp, 0);
    RunsConcatenate(INITIAL, events, lose, false);
    events := events + lose;
  }

  // ---------------------------------------------------------------- resuming

  /** What a member reads first of a partition that it was just assigned: on from the
      committed offset, or all that is retained if there is none; so a rebalance re-reads
      exactly what was not committed. */
  lemma ResumesAtCommitted(s: Group, m: MemberId, tps: set<Partition>, batch: seq<Range>, r: Range)
    requires Enabled(s, Reassign(m, tps)) && Enabled(Next(s, Reassign(m, tps)), Fetch(m, batch)) && r in batch
    ensures
      var start := if r.tp in s.starts then s.starts[r.tp] else 0;
      && r.tp in tps
      && r.lo == (if r.tp in s.committed && start < s.committed[r.tp] then s.committed[r.tp] else start)
  {
  }

  // ---------------------------------------------------------------- the lock and rebalances

  /** The coordinator hands a partition to a member only after every other member has
      given it up; a member gives up partitions only while it is outside the lock. */
  ghost predicate GivenUpFirst(s: Group, e: Event) {
    e.Reassign? ==>
      forall n, tp :: n in s.members && n != e.m && tp in e.partitions ==> tp !in s.members[n].assignment
  }

  ghost predicate GracefulRun(s: Group, events: seq<Event>)
    decreases |events|
  {
    events != [] ==>
      && Enabled(s, events[0])
      && GivenUpFirst(s, events[0])
      && GracefulRun(Next(s, events[0]), events[1..])
  }

  ghost function ExecGraceful(s: Group, events: seq<Event>): Group
    requires GracefulRun(s, events)
    decreases |events|
  {
    if events == [] then s else ExecGraceful(Next(s, events[0]), events[1..])
  }

  ghost predicate Exclusive(s: Group) {
    && (forall m, tp :: m in s.members && tp in s.members[m].assignment ==> tp in s.owner && s.owner[tp] == m)
    && (forall m :: m in s.members && s.members[m].locked ==> s.members[m].offsets.Keys <= s.members[m].assignment)
  }

  lemma StepExclusive(s: Group, e: Event)
    requires Exclusive(s) && Enabled(s, e) && GivenUpFirst(s, e)
    ensures Exclusive(Next(s, e))
  {
  }

  lemma {:induction false} RunExclusive(s: Group, events: seq<Event>)
    requires Exclusive(s) && GracefulRun(s, events)
    ensures Exclusive(ExecGraceful(s, events))
    decreases |events|
  {
    if events != [] {
      StepExclusive(s, events[0]);
      RunExclusive(Next(s, events[0]), events[1..]);
    }
  }

  /** The revoke waits for the batch in flight: when rebalances go through the listener, no
      two members ever hold one partition, and a member that reaches its commit still owns
      everything in it, so the broker can accept the commit. */
  lemma RevokeWaitsForCommit(events: seq<Event>, m: MemberId)
    requires GracefulRun(INITIAL, events)
    requires m in ExecGraceful(INITIAL, events).members
    ensures
      var s := ExecGraceful(INITIAL, events);
      && (forall n :: n in s.members && n != m ==> s.members[n].assignment !! s.members[m].assignment)
      && (s.members[m].locked && s.members[m].hand == [] ==> Enabled(s, Commit(m, true)))
  {
    RunExclusive(INITIAL, events);
    ExclusiveCommits(ExecGraceful(INITIAL, events), m);
  }

  lemma ExclusiveCommits(s: Group, m: MemberId)
    requires Exclusive(s) && m in s.members
    ensures forall n :: n in s.members && n != m ==> s.members[n].assignment !! s.members[m].assignment
    ensures s.members[m].locked && s.members[m].hand == [] ==> Enabled(s, Commit(m, true))
  {
    forall n, tp | n in s.members && n != m && tp in s.members[n].assignment
      ensures tp !in s.members[m].assignment
    {
      assert s.owner[tp] == n;
    }
  }
}

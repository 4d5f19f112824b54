/** Pipeline isolation: a record on one pipeline's topic is only ever inserted into that
    pipeline's own table. */
module Isolation {
  import opened Wrappers
  import opened Models
  import opened ClickHouse
  import opened Sink
  import opened Routing
  import opened Delivery
  import opened Pool
  import opened PoolSystem
  import opened PoolRuns
  import Naming
  import CollectionCounter

  /** No two pipelines of one user have the same collection number. */
  ghost predicate Numbered(ever: map<string, PipelineConfig>) {
    forall p, q :: p in ever && q in ever && p != q ==>
      ever[p].userId != ever[q].userId || ever[p].collectionNumber != ever[q].collectionNumber
  }

  /** Every pipeline got its number from its own INCR on its user's counter. */
  ghost predicate CounterAssigned(ever: map<string, PipelineConfig>, s: CollectionCounter.Redis, turn: map<string, nat>)
  {
    && (forall p :: p in ever ==>
          && p in turn && turn[p] < |CollectionCounter.Issued(s, ever[p].userId)|
          && CollectionCounter.Issued(s, ever[p].userId)[turn[p]] == ever[p].collectionNumber)
    && (forall p, q :: p in ever && q in ever && p != q && ever[p].userId == ever[q].userId ==> turn[p] != turn[q])
  }

  /** The counters keep numbers apart, in every interleaving of the calls. */
  lemma CountersKeepApart(ever: map<string, PipelineConfig>, turn: map<string, nat>,
                          before: map<string, CollectionCounter.Entry>, events: seq<CollectionCounter.Event>)
    requires CollectionCounter.Run(CollectionCounter.Before(before), events)
    requires CounterAssigned(ever, CollectionCounter.Exec(CollectionCounter.Before(before), events), turn)
    ensures Numbered(ever)
  {
    forall p, q | p in ever && q in ever && p != q && ever[p].userId == ever[q].userId
      ensures ever[p].collectionNumber != ever[q].collectionNumber
    {
      if turn[p] < turn[q] {
        CollectionCounter.NumbersIncrease(before, events, ever[p].userId, turn[p], turn[q]);
      } else {
        CollectionCounter.NumbersIncrease(before, events, ever[p].userId, turn[q], turn[p]);
      }
    }
  }

  /** The configs of all pipelines ever registered while a pool process lives, by id: ids
      are not re-created, user ids have no underscore, and collection numbers do not
      repeat. */
  ghost predicate Separate(ever: map<string, PipelineConfig>) {
    (forall p :: p in ever ==> ever[p].pipelineId == p && '_' !in ever[p].userId) && Numbered(ever)
  }

  /** ... and topics are the default ones. */
  ghost predicate Registered(ever: map<string, PipelineConfig>) {
    Separate(ever) && forall p :: p in ever ==> p != "" && '\n' !in p && ever[p].topic == DefaultTopic(p)
  }

  /** The cached config of a topic is that of the pipeline the topic names. */
  ghost predicate CacheAgrees(ever: map<string, PipelineConfig>, cache: map<Topic, PipelineConfig>) {
    forall topic :: topic in cache ==>
      match TopicPipelineId(topic)
      case None => false
      case Some(id) => id in ever && cache[topic] == ever[id]
  }

  /** Lookups through the registry keep the cache in agreement. */
  lemma LookupsAgree(ever: map<string, PipelineConfig>, present: map<string, PipelineConfig>,
                     before: map<Topic, PipelineConfig>, after: map<Topic, PipelineConfig>)
    requires CacheAgrees(ever, before)
    requires forall p :: p in present ==> p in ever && present[p] == ever[p]
    requires LookedUp(before, after, present)
    ensures CacheAgrees(ever, after)
  {
  }

  /** Different pipelines have different tables. */
  lemma TablesDiffer(ever: map<string, PipelineConfig>, p: string, q: string)
    requires Separate(ever) && p in ever && q in ever && p != q
    requires Identifies(ever[p]).Some?
    ensures Identifies(ever[p]) != Identifies(ever[q])
  {
    if Identifies(ever[p]) == Identifies(ever[q]) {
      var (a, b) := (ever[p], ever[q]);
      Naming.IdentifierIsInjective(a.userId, a.collectionNumber, a.tableName, b.userId, b.collectionNumber,
                                   b.tableName);
    }
  }

  /** A step of some pool member: rows are only added, routed by that member's cache. */
  ghost predicate PoolStep(ever: map<string, PipelineConfig>, s: Store, t: Store) {
    Extends(s, t) && exists cache :: CacheAgrees(ever, cache) && RowsRouted(s, t, cache)
  }

  ghost predicate PoolRun(ever: map<string, PipelineConfig>, stores: seq<Store>) {
    forall i :: 0 <= i < |stores| - 1 ==> PoolStep(ever, stores[i], stores[i + 1])
  }

  /** Every row of every table came from the topic of the pipeline that owns the table. */
  ghost predicate OwnRowsOnly(ever: map<string, PipelineConfig>, s: Store) {
    forall table, i :: 0 <= i < |RowsIn(s, table)| ==>
      match TopicPipelineId(RowsIn(s, table)[i].origin.topic)
      case None => false
      case Some(id) => id in ever && Identifies(ever[id]) == Some(table)
  }

  lemma StepKeepsRowsOwn(ever: map<string, PipelineConfig>, s: Store, t: Store)
    requires OwnRowsOnly(ever, s) && PoolStep(ever, s, t)
    ensures OwnRowsOnly(ever, t)
  {
    var cache :| CacheAgrees(ever, cache) && RowsRouted(s, t, cache);
    forall table, i | 0 <= i < |RowsIn(t, table)|
      ensures
        match TopicPipelineId(RowsIn(t, table)[i].origin.topic)
        case None => false
        case Some(id) => id in ever && Identifies(ever[id]) == Some(table)
    {
      if i < |RowsIn(s, table)| {
        assert RowsIn(t, table)[i] == RowsIn(s, table)[i];
      } else {
        assert RowsIn(t, table)[i].origin.topic in cache;
      }
    }
  }

  lemma {:induction false} RunKeepsRowsOwn(ever: map<string, PipelineConfig>, stores: seq<Store>, n: nat)
    requires PoolRun(ever, stores) && n < |stores|
    requires OwnRowsOnly(ever, stores[0])
    ensures OwnRowsOnly(ever, stores[n])
  {
    if n > 0 {
      RunKeepsRowsOwn(ever, stores, n - 1);
      StepKeepsRowsOwn(ever, stores[n - 1], stores[n]);
    }
  }

  /** In every run of any number of pool members from an empty store, a row in pipeline q's
      table that came from pipeline p's topic means p is q. */
  lemma PipelinesAreIsolated(ever: map<string, PipelineConfig>, stores: seq<Store>, n: nat, p: string, q: string,
                             i: nat)
    requires Registered(ever) && PoolRun(ever, stores) && n < |stores|
    requires stores[0] == Store(map[], [])
    requires p in ever && q in ever && Identifies(ever[q]).Some?
    requires
      var rows := RowsIn(stores[n], Identifies(ever[q]).value);
      i < |rows| && rows[i].origin.topic == ever[p].topic
    ensures p == q
  {
    RunKeepsRowsOwn(ever, stores, n);
    TopicRoundTrip(p);
    if p != q {
      TablesDiffer(ever, p, q);
    }
  }

  /** Every entry that some member handles is such a step, and leaves its cache in
      agreement. */
  lemma EntryIsPoolStep(env: Setting, mine: bool, ever: map<string, PipelineConfig>,
                        present: map<string, PipelineConfig>, batch: Batch, h: Handling)
    requires CacheAgrees(ever, h.before.cache)
    requires forall p :: p in present ==> p in ever && present[p] == ever[p]
    requires EntryDone(env, mine, present, batch, h)
    ensures CacheAgrees(ever, h.after.cache) && PoolStep(ever, h.before.store, h.after.store)
  {
    hide EntryDone;
    EntryLeaves(env, mine, present, batch, h);
    LookupsAgree(ever, present, h.before.cache, h.after.cache);
  }

  // ---------------------------------------------------------------- the whole system

  /** Every row of every table came from a topic of a pipeline whose table it is, and which
      can have messages inserted. */
  ghost predicate RowsOwned(env: Setting, t: Store, configs: set<PipelineConfig>) {
    forall table, i :: 0 <= i < |RowsIn(t, table)| ==> RowOwned(env, table, RowsIn(t, table)[i], configs)
  }

  ghost predicate RowOwned(env: Setting, table: string, row: Stored, configs: set<PipelineConfig>) {
    exists c :: c in configs && Owns(c, row.origin.topic) && Identifies(c) == Some(table) && Insertable(env, c)
  }

  lemma RoutedRowsOwned(env: Setting, s: Store, t: Store, cache: map<Topic, PipelineConfig>,
                        configs: set<PipelineConfig>)
    requires RowsOwned(env, s, configs) && Extends(s, t) && CacheFits(cache, configs)
    requires RowsRouted(s, t, cache) && RowsInsertable(env, s, t, cache)
    ensures RowsOwned(env, t, configs)
  {
    hide Insertable;
    forall table, i | 0 <= i < |RowsIn(t, table)| ensures RowOwned(env, table, RowsIn(t, table)[i], configs) {
      if i < |RowsIn(s, table)| {
        assert RowsIn(t, table)[i] == RowsIn(s, table)[i];
        assert RowOwned(env, table, RowsIn(s, table)[i], configs);
      } else {
        var topic := RowsIn(t, table)[i].origin.topic;
        assert topic in cache && Owns(cache[topic], topic) && Identifies(cache[topic]) == Some(table);
      }
    }
  }

  lemma RowsOwnedByMore(env: Setting, t: Store, configs: set<PipelineConfig>, more: set<PipelineConfig>)
    requires RowsOwned(env, t, configs) && configs <= more
    ensures RowsOwned(env, t, more)
  {
    hide Insertable;
    forall table, i | 0 <= i < |RowsIn(t, table)| ensures RowOwned(env, table, RowsIn(t, table)[i], more) {
      assert RowOwned(env, table, RowsIn(t, table)[i], configs);
    }
  }

  lemma HandledRowsOwned(env: Setting, s: System, m: MemberId, h: Handling)
    requires PoolSystem.Inv(s) && RowsOwned(env, s.store, s.ever) && CanStep(env, s, Step.HandleEntry(m, h))
    ensures RowsOwned(env, h.after.store, s.ever)
  {
    hide EntryDone, CacheFits, RowsOwned, RowsRouted, RowsInsertable, Extends;
    var mine := Current(s, m).tp in s.group.members[m].assignment;
    EntryLeaves(env, mine, s.configs, Current(s, m), h);
    EntryRowsInsertable(env, mine, s.configs, Current(s, m), h);
    assert MemberFits(s, m);
    LookupFits(s.caches[m], h.after.cache, s.configs, s.ever);
    RoutedRowsOwned(env, s.store, h.after.store, h.after.cache, s.ever);
  }

  lemma {:induction false} SystemRowsOwned(env: Setting, s: System, steps: seq<Step>, disciplined: bool)
    requires PoolSystem.Inv(s) && RowsOwned(env, s.store, s.ever) && SystemRun(env, s, steps, disciplined)
    ensures RowsOwned(env, SystemExec(env, s, steps).store, SystemExec(env, s, steps).ever)
    decreases |steps|
  {
    hide PoolSystem.Inv, EntryDone, NoGapFetched, RowsOwned;
    if steps != [] {
      var t := SystemNext(env, s, steps[0]);
      StepIsEvents(env, s, steps[0], disciplined);
      if steps[0].HandleEntry? {
        HandledRowsOwned(env, s, steps[0].m, steps[0].h);
      }
      RowsOwnedByMore(env, t.store, s.ever, t.ever);
      SystemRowsOwned(env, t, steps[1..], disciplined);
    }
  }

  ghost predicate UniqueIds(configs: set<PipelineConfig>) {
    forall a, b :: a in configs && b in configs && a.pipelineId == b.pipelineId ==> a == b
  }

  ghost function ById(configs: set<PipelineConfig>): map<string, PipelineConfig>
    requires UniqueIds(configs)
  {
    map c | c in configs :: c.pipelineId := c
  }

  /** Isolation of the whole system: in every run of any number of members, through all that
      goes on around them, a row in pipeline q's table that came from pipeline p's topic
      means p is q. */
  lemma SystemIsIsolated(env: Setting, steps: seq<Step>, disciplined: bool, p: PipelineConfig, q: PipelineConfig,
                         i: nat)
    requires SystemRun(env, START, steps, disciplined)
    requires
      var s := SystemExec(env, START, steps);
      && UniqueIds(s.ever) && Registered(ById(s.ever))
      && p in s.ever && q in s.ever && Identifies(q).Some?
      && i < |RowsIn(s.store, TableOf(q))| && RowsIn(s.store, TableOf(q))[i].origin.topic == p.topic
    ensures p == q
  {
    hide CanStep, SystemNext;
    StartInv();
    SystemRowsOwned(env, START, steps, disciplined);
    var s := SystemExec(env, START, steps);
    var row := RowsIn(s.store, TableOf(q))[i];
    assert RowOwned(env, TableOf(q), row, s.ever);
    var c :| c in s.ever && Owns(c, p.topic) && Identifies(c) == Some(TableOf(q));
    OwnerIs(ById(s.ever), c.pipelineId, p.pipelineId, q.pipelineId);
  }

  lemma OwnerIs(ever: map<string, PipelineConfig>, c: string, p: string, q: string)
    requires Registered(ever) && c in ever && p in ever && q in ever
    requires Owns(ever[c], ever[p].topic) && Identifies(ever[c]) == Identifies(ever[q])
    ensures p == q
  {
    TopicRoundTrip(p);
    if c != q {
      TablesDiffer(ever, c, q);
    }
  }

  // ---------------------------------------------------------------- any topics

  /** Only these pipelines were ever registered. */
  ghost predicate Among(configs: set<PipelineConfig>, ever: map<string, PipelineConfig>) {
    forall c :: c in configs ==> c.pipelineId in ever && ever[c.pipelineId] == c
  }

  ghost predicate HasRowFrom(t: Store, table: string, topic: Topic) {
    exists i :: 0 <= i < |RowsIn(t, table)| && RowsIn(t, table)[i].origin.topic == topic
  }

  /** This run of the system registers p, and only pipelines in ever, and leaves a row of
      p's topic in q's table. */
  ghost predicate Leaks(env: Setting, ever: map<string, PipelineConfig>, p: string, steps: seq<Step>, q: string)
    requires p in ever
  {
    && SystemRun(env, START, steps, false)
    && var s := SystemExec(env, START, steps);
       && Among(s.ever, ever) && ever[p] in s.ever
       && q in ever && q != p && Identifies(ever[q]).Some?
       && HasRowFrom(s.store, TableOf(ever[q]), ever[p].topic)
  }

  ghost predicate NeverLeaks(env: Setting, ever: map<string, PipelineConfig>, p: string)
    requires p in ever
  {
    forall steps: seq<Step>, q: string :: !Leaks(env, ever, p, steps, q)
  }

  /** The topic names no pipeline, p itself, or one that has no table or can have no message
      inserted. */
  ghost predicate Harmless(env: Setting, ever: map<string, PipelineConfig>, p: string)
    requires p in ever
  {
    match TopicPipelineId(ever[p].topic)
    case None => true
    case Some(id) => id == p || id !in ever || Identifies(ever[id]).None? || !Insertable(env, ever[id])
  }

  lemma HarmlessNeverLeaks(env: Setting, ever: map<string, PipelineConfig>, p: string, steps: seq<Step>, q: string)
    requires Separate(ever) && p in ever && Harmless(env, ever, p)
    ensures !Leaks(env, ever, p, steps, q)
  {
    hide CanStep, SystemNext, Insertable;
    if Leaks(env, ever, p, steps, q) {
      StartInv();
      SystemRowsOwned(env, START, steps, false);
      var s := SystemExec(env, START, steps);
      var rows := RowsIn(s.store, TableOf(ever[q]));
      var i :| 0 <= i < |rows| && rows[i].origin.topic == ever[p].topic;
      assert RowOwned(env, TableOf(ever[q]), rows[i], s.ever);
      TablesDiffer(ever, q, p);
      assert false;
    }
  }

  /** A topic that names another pipeline brings its rows into that one's table. */
  lemma NamedTopicLeaks(env: Setting, ever: map<string, PipelineConfig>, p: string)
      returns (steps: seq<Step>, q: string)
    requires Separate(ever) && p in ever && !Harmless(env, ever, p)
    ensures Leaks(env, ever, p, steps, q)
  {
    hide CanStep, SystemNext, Insertable, Identifies, PoolSystem.Inv, TopicPipelineId;
    var tp := Partition(ever[p].topic, 0);
    q := TopicPipelineId(ever[p].topic).value;
    steps := TwoRecordsReady(env, tp);
    RegisterReady(env, SystemExec(env, START, steps), tp, 0, ever[p]);
    steps := RunThen(env, steps, [Register(ever[p])]);
    RegisterReady(env, SystemExec(env, START, steps), tp, 0, ever[q]);
    steps := RunThen(env, steps, [Register(ever[q])]);
    var s := SystemExec(env, START, steps);
    var insert, row := InsertOne(env, s, tp, 0, ever[q]);
    steps := RunThen(env, steps, insert);
    var table := TableOf(ever[q]);
    assert RowsIn(SystemExec(env, START, steps).store, table)[0] == row;
  }

  /** Whatever topics pipelines are given, p's rows stay out of all other tables in every
      run of the system exactly if p's topic is harmless. */
  lemma IsolatedExactly(env: Setting, ever: map<string, PipelineConfig>, p: string)
    requires Separate(ever) && p in ever
    ensures NeverLeaks(env, ever, p) <==> Harmless(env, ever, p)
  {
    hide Leaks, Harmless, Separate;
    if Harmless(env, ever, p) {
      forall steps: seq<Step>, q: string ensures !Leaks(env, ever, p, steps, q) {
        HarmlessNeverLeaks(env, ever, p, steps, q);
      }
    } else {
      var steps, q := NamedTopicLeaks(env, ever, p);
    }
  }
}

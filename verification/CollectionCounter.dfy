/** Concurrent calls of next_collection_number, with pipelines created and deleted between
    any two Redis commands. */
module CollectionCounter {
  import opened Wrappers

  type User = string
  type PipelineId = string
  type CallId = nat

  /** What a pipeline's config says that matters here. */
  datatype Entry = Entry(user: User, number: int)

  /** Where a call is: about to test for the counter, to list the pipelines, to read the
      listed configs one by one, or to increment. */
  datatype Call =
    | Checking(user: User)
    | Listing(user: User)
    | Reading(user: User, todo: set<PipelineId>, used: Option<int>)
    | Incrementing(user: User)

  /** The Redis keys and the calls in progress.  `issued` are the numbers handed out, in
      INCR order.  `seeds` is what each counter was first set to, and `steady` the configs
      a user had before his first call and has kept since (frozen once the counter is
      set); the program keeps neither. */
  datatype Redis = Redis(
    configs: map<PipelineId, Entry>,
    counters: map<User, int>,
    calls: map<CallId, Call>,
    issued: map<User, seq<int>>,
    seeds: map<User, int>,
    steady: map<User, map<PipelineId, int>>)

  datatype Event =
    | Create(p: PipelineId, entry: Entry)
    | Delete(p: PipelineId)
    | Start(c: CallId, user: User)
    | Exists(c: CallId)
    | List(c: CallId)
    | Read(c: CallId, p: PipelineId)
    | SetIfMissing(c: CallId)
    | Increment(c: CallId)

  function Issued(s: Redis, user: User): seq<int> {
    if user in s.issued then s.issued[user] else []
  }

  function OfUser(configs: map<PipelineId, Entry>, user: User): map<PipelineId, int> {
    map p | p in configs && configs[p].user == user :: configs[p].number
  }

  function MaxWith(used: Option<int>, n: int): Option<int> {
    match used
    case None => Some(n)
    case Some(m) => Some(if m < n then n else m)
  }

  ghost predicate Enabled(s: Redis, e: Event) {
    match e
    case Create(p, _) => p !in s.configs
    case Delete(p) => true
    case Start(c, _) => c !in s.calls
    case Exists(c) => c in s.calls && s.calls[c].Checking?
    case List(c) => c in s.calls && s.calls[c].Listing?
    case Read(c, p) => c in s.calls && s.calls[c].Reading? && p in s.calls[c].todo
    case SetIfMissing(c) => c in s.calls && s.calls[c].Reading? && s.calls[c].todo == {}
    case Increment(c) => c in s.calls && s.calls[c].Incrementing? && s.calls[c].user in s.counters
  }

  ghost function Next(s: Redis, e: Event): Redis
    requires Enabled(s, e)
  {
    match e
    case Create(p, entry) => s.(configs := s.configs[p := entry])
    case Delete(p) =>
      s.(configs := s.configs - {p},
         steady := map u | u in s.steady :: if u in s.counters then s.steady[u] else s.steady[u] - {p})
    case Start(c, user) =>
      s.(calls := s.calls[c := Checking(user)],
         steady := if user in s.steady then s.steady else s.steady[user := OfUser(s.configs, user)])
    case Exists(c) =>
      var user := s.calls[c].user;
      s.(calls := s.calls[c := if user in s.counters then Incrementing(user) else Listing(user)])
    case List(c) => s.(calls := s.calls[c := Reading(s.calls[c].user, s.configs.Keys, None)])
    case Read(c, p) =>
      var Reading(user, todo, used) := s.calls[c];
      var mine := p in s.configs && s.configs[p].user == user;
      s.(calls := s.calls[c := Reading(user, todo - {p}, if mine then MaxWith(used, s.configs[p].number) else used)])
    case SetIfMissing(c) =>
      var Reading(user, _, used) := s.calls[c];
      var seed := match used case Some(n) => n case None => 0;
      // SET NX: only the first of several racing calls sets the counter.
      var s' := if user in s.counters then s
                else s.(counters := s.counters[user := seed], seeds := s.seeds[user := seed]);
      s'.(calls := s'.calls[c := Incrementing(user)])
    case Increment(c) =>
      var user := s.calls[c].user;
      s.(counters := s.counters[user := s.counters[user] + 1],
         issued := s.issued[user := Issued(s, user) + [s.counters[user] + 1]],
         calls := s.calls - {c})
  }

  ghost predicate Run(s: Redis, events: seq<Event>)
    decreases |events|
  {
    events != [] ==> Enabled(s, events[0]) && Run(Next(s, events[0]), events[1..])
  }

  ghost function Exec(s: Redis, events: seq<Event>): Redis
    requires Run(s, events)
    decreases |events|
  {
    if events == [] then s else Exec(Next(s, events[0]), events[1..])
  }

  /** Redis with the pipelines that were there before any counter. */
  function Before(configs: map<PipelineId, Entry>): Redis {
    Redis(configs, map[], map[], map[], map[], map[])
  }

  // ---------------------------------------------------------------- what every run keeps

  /** The user's counter is its seed plus what was handed out, one by one. */
  ghost predicate Counted(s: Redis, u: User) {
    && (u in s.seeds <==> u in s.counters)
    && if u in s.counters
       then s.counters[u] == s.seeds[u] + |Issued(s, u)|
          && forall i :: 0 <= i < |Issued(s, u)| ==> Issued(s, u)[i] == s.seeds[u] + i + 1
       else Issued(s, u) == []
  }

  /** The seed is at least every steady number of its user. */
  ghost predicate SeedCovers(s: Redis, u: User) {
    && (u in s.counters ==> u in s.steady)
    && (u in s.seeds && u in s.steady ==> forall p :: p in s.steady[u] ==> s.steady[u][p] <= s.seeds[u])
  }

  /** Before the counter is set, steady configs are present. */
  ghost predicate SteadyPresent(s: Redis, u: User) {
    u in s.steady && u !in s.counters ==>
      forall p :: p in s.steady[u] ==> p in s.configs && s.configs[p] == Entry(u, s.steady[u][p])
  }

  /** Before the counter is set, a reading call has either still to read each steady config
      or has counted it. */
  ghost predicate ReaderCovers(s: Redis, c: CallId)
    requires c in s.calls
  {
    var u := s.calls[c].user;
    && u in s.steady
    && (s.calls[c].Incrementing? ==> u in s.counters)
    && (s.calls[c].Reading? && u !in s.counters ==>
          forall p :: p in s.steady[u] ==>
            p in s.calls[c].todo || (s.calls[c].used.Some? && s.steady[u][p] <= s.calls[c].used.value))
  }

  ghost predicate UserInv(s: Redis, u: User) {
    Counted(s, u) && SeedCovers(s, u) && SteadyPresent(s, u)
  }

  ghost predicate Inv(s: Redis) {
    && (forall u :: UserInv(s, u))
    && (forall c :: c in s.calls ==> ReaderCovers(s, c))
  }

  lemma StepKeepsCounted(s: Redis, e: Event, u: User)
    requires Counted(s, u) && Enabled(s, e)
    ensures Counted(Next(s, e), u)
  {
    var t := Next(s, e);
    if e.Increment? && s.calls[e.c].user == u {
      assert Issued(t, u) == Issued(s, u) + [s.counters[u] + 1];
    } else {
      assert Issued(t, u) == Issued(s, u);
    }
  }

  lemma SeedingCovers(s: Redis, c: CallId)
    requires Enabled(s, SetIfMissing(c)) && ReaderCovers(s, c)
    requires SeedCovers(s, s.calls[c].user)
    ensures SeedCovers(Next(s, SetIfMissing(c)), s.calls[c].user)
  {
  }

  lemma StepKeepsSeed(s: Redis, e: Event, u: User)
    requires UserInv(s, u) && Enabled(s, e)
    requires e.SetIfMissing? ==> ReaderCovers(s, e.c)
    ensures SeedCovers(Next(s, e), u)
  {
    if e.SetIfMissing? && s.calls[e.c].user == u {
      SeedingCovers(s, e.c);
    }
  }

  lemma StepKeepsSteady(s: Redis, e: Event, u: User)
    requires SteadyPresent(s, u) && Enabled(s, e)
    ensures SteadyPresent(Next(s, e), u)
  {
  }

  lemma StepKeepsReader(s: Redis, e: Event, c: CallId)
    requires Enabled(s, e) && c in Next(s, e).calls
    requires c in s.calls ==> ReaderCovers(s, c) && SteadyPresent(s, s.calls[c].user)
    ensures ReaderCovers(Next(s, e), c)
  {
  }

  lemma StepKeepsInv(s: Redis, e: Event)
    requires Inv(s) && Enabled(s, e)
    ensures Inv(Next(s, e))
  {
    forall u ensures UserInv(Next(s, e), u) {
      assert UserInv(s, u);
      StepKeepsCounted(s, e, u);
      StepKeepsSeed(s, e, u);
      StepKeepsSteady(s, e, u);
    }
    forall c | c in Next(s, e).calls ensures ReaderCovers(Next(s, e), c) {
      assert c in s.calls ==> UserInv(s, s.calls[c].user);
      StepKeepsReader(s, e, c);
    }
  }

  lemma {:induction false} RunKeepsInv(s: Redis, events: seq<Event>)
    requires Inv(s) && Run(s, events)
    ensures Inv(Exec(s, events))
    decreases |events|
  {
    if events != [] {
      StepKeepsInv(s, events[0]);
      RunKeepsInv(Next(s, events[0]), events[1..]);
    }
  }

  /** In every interleaving, the numbers handed to one user increase in INCR order, so no
      two of them are equal. */
  lemma NumbersIncrease(configs: map<PipelineId, Entry>, events: seq<Event>, user: User, i: nat, j: nat)
    requires Run(Before(configs), events)
    requires i < j < |Issued(Exec(Before(configs), events), user)|
    ensures Issued(Exec(Before(configs), events), user)[i] < Issued(Exec(Before(configs), events), user)[j]
  {
    RunKeepsInv(Before(configs), events);
    assert UserInv(Exec(Before(configs), events), user);
  }

  /** ... and all exceed the number of every config the user had from before his first call
      until the counter was set. */
  lemma NumbersAreFresh(configs: map<PipelineId, Entry>, events: seq<Event>, user: User, i: nat, p: PipelineId)
    requires Run(Before(configs), events)
    requires
      var s := Exec(Before(configs), events);
      i < |Issued(s, user)| && user in s.steady && p in s.steady[user]
    ensures
      var s := Exec(Before(configs), events);
      s.steady[user][p] < Issued(s, user)[i]
  {
    RunKeepsInv(Before(configs), events);
    assert UserInv(Exec(Before(configs), events), user);
  }

  // ---------------------------------------------------------------- steady configs, as promised

  /** The pipeline is not deleted and not created again. */
  ghost predicate Untouched(events: seq<Event>, p: PipelineId) {
    forall e :: e in events ==> !(e.Create? && e.p == p) && !(e.Delete? && e.p == p)
  }

  /** The config is there, and steady for its user once he has made a call. */
  ghost predicate Steady(s: Redis, p: PipelineId, entry: Entry) {
    && p in s.configs && s.configs[p] == entry
    && (entry.user in s.steady ==> p in s.steady[entry.user] && s.steady[entry.user][p] == entry.number)
  }

  lemma SteadyStep(s: Redis, e: Event, p: PipelineId, entry: Entry)
    requires Steady(s, p, entry) && Enabled(s, e)
    requires !(e.Create? && e.p == p) && !(e.Delete? && e.p == p)
    ensures Steady(Next(s, e), p, entry)
  {
  }

  lemma {:induction false} UntouchedStays(s: Redis, events: seq<Event>, p: PipelineId, entry: Entry)
    requires Run(s, events) && Untouched(events, p)
    requires Steady(s, p, entry)
    ensures Steady(Exec(s, events), p, entry)
    decreases |events|
  {
    if events != [] {
      assert events[0] in events;
      SteadyStep(s, events[0], p, entry);
      assert forall e :: e in events[1..] ==> e in events;
      UntouchedStays(Next(s, events[0]), events[1..], p, entry);
    }
  }

  /** In particular no number handed out, in any interleaving, is that of a pipeline that
      was there before the counter existed and was never deleted. */
  lemma OldPipelinesKeepTheirNumbers(configs: map<PipelineId, Entry>, events: seq<Event>, p: PipelineId, i: nat)
    requires Run(Before(configs), events) && Untouched(events, p)
    requires p in configs && i < |Issued(Exec(Before(configs), events), configs[p].user)|
    ensures configs[p].number < Issued(Exec(Before(configs), events), configs[p].user)[i]
  {
    var s := Exec(Before(configs), events);
    RunKeepsInv(Before(configs), events);
    assert UserInv(s, configs[p].user);
    UntouchedStays(Before(configs), events, p, configs[p]);
    NumbersAreFresh(configs, events, configs[p].user, i, p);
  }

  // ---------------------------------------------------------------- no number is skipped

  /** The configs of all pipelines there were. */
  function Ever(configs: set<Entry>, events: seq<Event>): set<Entry>
    decreases |events|
  {
    if events == [] then configs
    else Ever(if events[0].Create? then configs + {events[0].entry} else configs, events[1..])
  }

  /** What calls have found, and counters were set to, are numbers of the user's own
      pipelines. */
  ghost predicate Found(s: Redis, ever: set<Entry>) {
    && (forall p :: p in s.configs ==> s.configs[p] in ever)
    && (forall c :: c in s.calls && s.calls[c].Reading? && s.calls[c].used.Some? ==>
          Entry(s.calls[c].user, s.calls[c].used.value) in ever)
    && (forall u :: u in s.seeds && s.seeds[u] != 0 ==> Entry(u, s.seeds[u]) in ever)
  }

  lemma ReadFinds(s: Redis, c: CallId, p: PipelineId, ever: set<Entry>)
    requires Found(s, ever) && Enabled(s, Read(c, p))
    ensures Found(Next(s, Read(c, p)), ever)
  {
    var used := s.calls[c].used;
    if p in s.configs && s.configs[p].user == s.calls[c].user {
      assert s.configs[p] == Entry(s.calls[c].user, s.configs[p].number);
    }
  }

  lemma StepFinds(s: Redis, e: Event, ever: set<Entry>)
    requires Found(s, ever) && Enabled(s, e)
    ensures Found(Next(s, e), if e.Create? then ever + {e.entry} else ever)
  {
    if e.Read? {
      ReadFinds(s, e.c, e.p, ever);
    }
  }

  lemma {:induction false} RunFinds(s: Redis, events: seq<Event>, ever: set<Entry>)
    requires Found(s, ever) && Run(s, events)
    ensures Found(Exec(s, events), Ever(ever, events))
    decreases |events|
  {
    if events != [] {
      StepFinds(s, events[0], ever);
      RunFinds(Next(s, events[0]), events[1..], if events[0].Create? then ever + {events[0].entry} else ever);
    }
  }

  /** In every interleaving a user's numbers go up by one each, from 1 or from one more than
      a number that a pipeline of that same user has had. */
  lemma NoNumberIsSkipped(configs: map<PipelineId, Entry>, events: seq<Event>, user: User) returns (base: int)
    requires Run(Before(configs), events)
    ensures base == 0 || Entry(user, base) in Ever(configs.Values, events)
    ensures
      var numbers := Issued(Exec(Before(configs), events), user);
      forall i :: 0 <= i < |numbers| ==> numbers[i] == base + i + 1
  {
    RunKeepsInv(Before(configs), events);
    RunFinds(Before(configs), events, configs.Values);
    var s := Exec(Before(configs), events);
    assert UserInv(s, user);
    base := if user in s.seeds then s.seeds[user] else 0;
  }
}

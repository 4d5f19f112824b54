/** The Redis leader lock as a timed protocol among any number of processes.

    A process's Redis commands are separate events: between the GET and the EXPIRE or DELETE
    that follows it, time passes and other processes run. */
module LeaderLock {
  import opened Wrappers

  const LOCK_TTL: real := 15.0
  const RENEW_INTERVAL: real := 5.0
  const RETRY_INTERVAL: real := 3.0

  type ProcessId = nat

  /** Where a process is.  Waiting: in acquire_with_retry, next attempt due at `next`.
      Sleeping: leader, next renewal due at `wake`.  Checked: leader, GET returned its own
      identity, EXPIRE still to come.  Releasing and Deleting: in release, before the GET
      and before the DELETE.  Lost: the renew loop saw another identity.  Released: done. */
  datatype Phase =
    | Waiting(next: real, tried: bool)
    | Sleeping(wake: real)
    | Checked
    | Releasing
    | Deleting
    | Lost
    | Released

  /** `refreshed` is when this process last set or extended the key; the program does not
      store it. */
  datatype Process = Process(phase: Phase, refreshed: real)

  datatype Key = Key(holder: ProcessId, expiry: real)

  /** `lastRefresh` is when anyone last set or extended the key. */
  datatype System = System(now: real, key: Option<Key>, processes: map<ProcessId, Process>, lastRefresh: real)

  const INITIAL := System(0.0, None, map[], 0.0)

  datatype Event =
    | Tick(d: real)
    | Start(p: ProcessId)
    | Crash(p: ProcessId)
    | TryAcquire(p: ProcessId)
    | RenewGet(p: ProcessId)
    | RenewExpire(p: ProcessId)
    | BeginRelease(p: ProcessId)
    | ReleaseGet(p: ProcessId)
    | ReleaseDelete(p: ProcessId)

  /** The process's `is_leader` flag. */
  predicate IsLeader(s: System, p: ProcessId) {
    p in s.processes && IsLeading(s.processes[p].phase)
  }

  predicate IsLeading(phase: Phase) {
    phase.Sleeping? || phase.Checked? || phase.Releasing? || phase.Deleting?
  }

  /** The key exists and has not expired. */
  predicate Live(s: System) {
    s.key.Some? && s.now < s.key.value.expiry
  }

  predicate Holds(s: System, p: ProcessId) {
    Live(s) && s.key.value.holder == p
  }

  predicate Enabled(s: System, e: Event) {
    match e
    case Tick(d) => d > 0.0
    case Start(p) => p !in s.processes
    case Crash(p) => p in s.processes
    case TryAcquire(p) => p in s.processes && s.processes[p].phase.Waiting? && s.processes[p].phase.next <= s.now
    case RenewGet(p) => p in s.processes && s.processes[p].phase.Sleeping? && s.processes[p].phase.wake <= s.now
    case RenewExpire(p) => p in s.processes && s.processes[p].phase.Checked?
    case BeginRelease(p) =>
      p in s.processes
        && (s.processes[p].phase.Sleeping? || s.processes[p].phase.Checked? || s.processes[p].phase.Lost?)
    case ReleaseGet(p) => p in s.processes && s.processes[p].phase.Releasing?
    case ReleaseDelete(p) => p in s.processes && s.processes[p].phase.Deleting?
  }

  function Goes(s: System, p: ProcessId, phase: Phase): System
    requires p in s.processes
  {
    s.(processes := s.processes[p := s.processes[p].(phase := phase)])
  }

  /** p has just set or extended its key. */
  function Refresh(s: System, p: ProcessId): System {
    s.(key := Some(Key(p, s.now + LOCK_TTL)),
       processes := s.processes[p := Process(Sleeping(s.now + RENEW_INTERVAL), s.now)],
       lastRefresh := s.now)
  }

  function Next(s: System, e: Event): System
    requires Enabled(s, e)
  {
    match e
    case Tick(d) => s.(now := s.now + d)
    case Start(p) => s.(processes := s.processes[p := Process(Waiting(s.now, false), s.now)])
    case Crash(p) => s.(processes := s.processes - {p})
    case TryAcquire(p) =>
      // SET NX EX: atomic
      if Live(s) then Goes(s, p, Waiting(s.now + RETRY_INTERVAL, true)) else Refresh(s, p)
    case RenewGet(p) => if Holds(s, p) then Goes(s, p, Checked) else Goes(s, p, Lost)
    case RenewExpire(p) =>
      // EXPIRE extends whatever key is there, and does nothing if there is none.
      if Holds(s, p) then Refresh(s, p)
      else if Live(s) then
        Goes(s, p, Sleeping(s.now + RENEW_INTERVAL)).(key := Some(s.key.value.(expiry := s.now + LOCK_TTL)),
                                                      lastRefresh := s.now)
      else Goes(s, p, Sleeping(s.now + RENEW_INTERVAL))
    case BeginRelease(p) => Goes(s, p, if s.processes[p].phase.Lost? then Released else Releasing)
    case ReleaseGet(p) => if Holds(s, p) then Goes(s, p, Deleting) else Goes(s, p, Released)
    case ReleaseDelete(p) => Goes(s, p, Released).(key := None)
  }

  // ---------------------------------------------------------------- runs

  /** The latency bound: time does not pass TTL after a leader's last refresh before its
      GET and EXPIRE (or, in release, its GET and DELETE) are through. */
  ghost predicate Timely(s: System, e: Event) {
    e.Tick? ==> forall p :: IsLeader(s, p) ==> s.now + e.d < s.processes[p].refreshed + LOCK_TTL
  }

  /** While w waits, it attempts when its attempt is due. */
  ghost predicate Punctual(s: System, e: Event, w: ProcessId) {
    e.Tick? && w in s.processes && s.processes[w].phase.Waiting? ==> s.now + e.d <= s.processes[w].phase.next
  }

  ghost predicate Run(s: System, events: seq<Event>)
    decreases |events|
  {
    events != [] ==> Enabled(s, events[0]) && Run(Next(s, events[0]), events[1..])
  }

  ghost function Exec(s: System, events: seq<Event>): System
    requires Run(s, events)
    decreases |events|
  {
    if events == [] then s else Exec(Next(s, events[0]), events[1..])
  }

  ghost predicate TimelyRun(s: System, events: seq<Event>)
    requires Run(s, events)
    decreases |events|
  {
    events != [] ==> Timely(s, events[0]) && TimelyRun(Next(s, events[0]), events[1..])
  }

  ghost predicate PunctualRun(s: System, events: seq<Event>, w: ProcessId)
    requires Run(s, events)
    decreases |events|
  {
    events != [] ==> Punctual(s, events[0], w) && PunctualRun(Next(s, events[0]), events[1..], w)
  }

  // ---------------------------------------------------------------- mutual exclusion

  /** Every leader holds the key, and it is the key of its last refresh. */
  ghost predicate Inv(s: System) {
    forall p :: IsLeader(s, p) ==> Holds(s, p) && s.key.value.expiry == s.processes[p].refreshed + LOCK_TTL
  }

  lemma StepKeepsInv(s: System, e: Event)
    requires Inv(s) && Enabled(s, e) && Timely(s, e)
    ensures Inv(Next(s, e))
  {
  }

  lemma {:induction false} RunKeepsInv(s: System, events: seq<Event>)
    requires Inv(s) && Run(s, events) && TimelyRun(s, events)
    ensures Inv(Exec(s, events))
    decreases |events|
  {
    if events != [] {
      StepKeepsInv(s, events[0]);
      RunKeepsInv(Next(s, events[0]), events[1..]);
    }
  }

  /** In every run of any number of processes that meets the latency bound, at most one
      process is leader, and the key holds its identity. */
  lemma MutualExclusion(events: seq<Event>, p: ProcessId, q: ProcessId)
    requires Run(INITIAL, events) && TimelyRun(INITIAL, events)
    requires IsLeader(Exec(INITIAL, events), p)
    ensures Holds(Exec(INITIAL, events), p)
    ensures IsLeader(Exec(INITIAL, events), q) ==> p == q
  {
    RunKeepsInv(INITIAL, events);
  }

  /** ... and a release never deletes another process's key. */
  lemma ReleaseDeletesOwnKey(events: seq<Event>, p: ProcessId)
    requires Run(INITIAL, events) && TimelyRun(INITIAL, events)
    requires Enabled(Exec(INITIAL, events), ReleaseDelete(p))
    ensures Exec(INITIAL, events).key.Some? && Exec(INITIAL, events).key.value.holder == p
  {
    RunKeepsInv(INITIAL, events);
  }

  /** The deadline passes, and another process tries. */
  function Intrusion(d: real, q: ProcessId): seq<Event> {
    [Tick(d), Start(q), TryAcquire(q)]
  }

  lemma OneEvent(s: System, e: Event)
    requires Enabled(s, e)
    ensures Run(s, [e]) && Exec(s, [e]) == Next(s, e)
  {
    assert [e][1..] == [];
  }

  lemma ThreeEvents(s: System, a: Event, b: Event, c: Event)
    requires Enabled(s, a) && Enabled(Next(s, a), b) && Enabled(Next(Next(s, a), b), c)
    ensures Run(s, [a, b, c]) && Exec(s, [a, b, c]) == Next(Next(Next(s, a), b), c)
  {
    OneEvent(Next(Next(s, a), b), c);
    assert [b, c][1..] == [c];
    assert Run(Next(s, a), [b, c]) && Exec(Next(s, a), [b, c]) == Next(Next(Next(s, a), b), c);
    assert [a, b, c][1..] == [b, c];
  }

  lemma IntrusionSucceeds(s: System, d: real, q: ProcessId)
    requires Inv(s) && q !in s.processes
    requires d > 0.0 && !Timely(s, Tick(d))
    ensures Run(s, Intrusion(d, q))
    ensures
      var t := Exec(s, Intrusion(d, q));
      && t == Refresh(s.(now := s.now + d), q)
      && Holds(t, q)
  {
    var late :| IsLeader(s, late) && s.now + d >= s.processes[late].refreshed + LOCK_TTL;
    var s1 := Next(s, Tick(d));
    assert !Live(s1);
    var s2 := Next(s1, Start(q));
    ThreeEvents(s, Tick(d), Start(q), TryAcquire(q));
    var s3 := Next(s2, TryAcquire(q));
    assert s3.processes == s.processes[q := s3.processes[q]];
  }

  /** The bound is needed: from every such state with a leader, letting its deadline pass
      lets a second process become leader beside it. */
  lemma MissedDeadlineBreaksExclusion(s: System, p: ProcessId, d: real, q: ProcessId)
    requires Inv(s) && IsLeader(s, p) && q !in s.processes
    requires d > 0.0 && !Timely(s, Tick(d))
    ensures Run(s, Intrusion(d, q))
    ensures IsLeader(Exec(s, Intrusion(d, q)), p) && IsLeader(Exec(s, Intrusion(d, q)), q) && p != q
  {
    IntrusionSucceeds(s, d, q);
  }

  /** ... and, when the late process is about to delete, it deletes the second one's key. */
  lemma LateDeleteTakesAnothersKey(s: System, p: ProcessId, d: real, q: ProcessId)
    requires Inv(s) && Enabled(s, ReleaseDelete(p)) && q !in s.processes
    requires d > 0.0 && !Timely(s, Tick(d))
    ensures Run(s, Intrusion(d, q))
    ensures
      var t := Exec(s, Intrusion(d, q));
      && Holds(t, q)
      && Enabled(t, ReleaseDelete(p))
      && !Live(Next(t, ReleaseDelete(p)))
      && IsLeader(Next(t, ReleaseDelete(p)), q)
  {
    IntrusionSucceeds(s, d, q);
  }

  // ---------------------------------------------------------------- keeping the lock

  /** When p's renewal is due: a leader past its GET keeps the time it woke for. */
  function Due(s: System, p: ProcessId): real
    requires IsLeader(s, p)
  {
    match s.processes[p].phase
    case Sleeping(wake) => wake
    case _ => s.processes[p].refreshed + 5.0
  }

  /** No leader is late by ten seconds, neither for its GET nor between its two commands. */
  ghost predicate Prompt(s: System, e: Event) {
    e.Tick? ==> forall p :: IsLeader(s, p) ==> s.now + e.d < Due(s, p) + 10.0
  }

  ghost predicate PromptRun(s: System, events: seq<Event>)
    requires Run(s, events)
    decreases |events|
  {
    events != [] ==> Prompt(s, events[0]) && PromptRun(Next(s, events[0]), events[1..])
  }

  /** A leader that sleeps wakes 5 seconds after its last refresh. */
  ghost predicate WakesInTime(s: System) {
    forall p :: IsLeader(s, p) && s.processes[p].phase.Sleeping? ==>
      s.processes[p].phase.wake == s.processes[p].refreshed + 5.0
  }

  lemma StepWakesInTime(s: System, e: Event)
    requires Inv(s) && WakesInTime(s) && Enabled(s, e)
    ensures WakesInTime(Next(s, e))
    ensures Timely(s, e) <==> Prompt(s, e)
  {
    if e.RenewExpire? {
      assert IsLeader(s, e.p);
    }
    if e.Tick? {
      forall p | IsLeader(s, p) ensures Due(s, p) + 10.0 == s.processes[p].refreshed + LOCK_TTL { }
    }
  }

  lemma {:induction false} TimelyIsPrompt(s: System, events: seq<Event>)
    requires Inv(s) && WakesInTime(s) && Run(s, events)
    ensures TimelyRun(s, events) <==> PromptRun(s, events)
    decreases |events|
  {
    if events != [] {
      StepWakesInTime(s, events[0]);
      if Timely(s, events[0]) {
        StepKeepsInv(s, events[0]);
        TimelyIsPrompt(Next(s, events[0]), events[1..]);
      }
    }
  }

  /** What the latency bound asks of the processes, exactly: with a renewal every 5 seconds
      and a TTL of 15, that a leader's GET and EXPIRE are through less than 10 seconds after
      the renewal was due. */
  lemma TimelyExactly(events: seq<Event>)
    requires Run(INITIAL, events)
    ensures TimelyRun(INITIAL, events) <==> PromptRun(INITIAL, events)
  {
    TimelyIsPrompt(INITIAL, events);
  }

  /** p neither crashes nor starts to release. */
  ghost predicate KeepsOn(events: seq<Event>, p: ProcessId) {
    forall e :: e in events ==> e != Crash(p) && e != BeginRelease(p)
  }

  lemma LeaderStaysStep(s: System, e: Event, p: ProcessId)
    requires Inv(s) && Enabled(s, e) && Timely(s, e)
    requires IsLeader(s, p) && (s.processes[p].phase.Sleeping? || s.processes[p].phase.Checked?)
    requires e != Crash(p) && e != BeginRelease(p)
    ensures
      var t := Next(s, e);
      IsLeader(t, p) && (t.processes[p].phase.Sleeping? || t.processes[p].phase.Checked?)
  {
  }

  /** Such a leader stays leader, over a run of any length and whatever others do. */
  lemma {:induction false} LeaderStays(s: System, events: seq<Event>, p: ProcessId)
    requires Inv(s) && Run(s, events) && TimelyRun(s, events) && KeepsOn(events, p)
    requires IsLeader(s, p) && (s.processes[p].phase.Sleeping? || s.processes[p].phase.Checked?)
    ensures IsLeader(Exec(s, events), p) && Holds(Exec(s, events), p)
    decreases |events|
  {
    if events == [] {
      assert Holds(s, p);
    } else {
      assert events[0] in events;
      assert forall e :: e in events[1..] ==> e in events;
      StepKeepsInv(s, events[0]);
      LeaderStaysStep(s, events[0], p);
      LeaderStays(Next(s, events[0]), events[1..], p);
    }
  }

  /** p alone, its key just refreshed. */
  function Alone(p: ProcessId, t: real): System {
    System(t, Some(Key(p, t + 15.0)), map[p := Process(Sleeping(t + 5.0), t)], t)
  }

  lemma OneRenewal(p: ProcessId, t: real)
    ensures
      var s := Alone(p, t);
      && Run(s, [Tick(5.0), RenewGet(p), RenewExpire(p)])
      && TimelyRun(s, [Tick(5.0), RenewGet(p), RenewExpire(p)])
      && Exec(s, [Tick(5.0), RenewGet(p), RenewExpire(p)]) == Alone(p, t + 5.0)
  {
    var s := Alone(p, t);
    var s1 := Next(s, Tick(5.0));
    var s2 := Next(s1, RenewGet(p));
    assert Holds(s1, p) && Holds(s2, p);
    ThreeEvents(s, Tick(5.0), RenewGet(p), RenewExpire(p));
    assert Next(s2, RenewExpire(p)).processes == map[p := Process(Sleeping(t + 5.0 + 5.0), t + 5.0)];
    TimelyThree(s, Tick(5.0), RenewGet(p), RenewExpire(p));
  }

  lemma TimelyThree(s: System, a: Event, b: Event, c: Event)
    requires Run(s, [a, b, c]) && Timely(s, a) && !b.Tick? && !c.Tick?
    ensures TimelyRun(s, [a, b, c])
  {
    assert [a, b, c][1..] == [b, c] && [b, c][1..] == [c] && [c][1..] == [];
    var s1 := Next(s, a);
    assert Run(s1, [b, c]) && Run(Next(s1, b), [c]);
    assert TimelyRun(Next(s1, b), [c]);
    assert TimelyRun(s1, [b, c]);
  }

  lemma {:induction false} RunsConcatenate(s: System, first: seq<Event>, second: seq<Event>)
    requires Run(s, first) && Run(Exec(s, first), second)
    requires TimelyRun(s, first) && TimelyRun(Exec(s, first), second)
    ensures Run(s, first + second) && TimelyRun(s, first + second)
    ensures Exec(s, first + second) == Exec(Exec(s, first), second)
    decreases |first|
  {
    if first == [] {
      assert first + second == second;
    } else {
      assert (first + second)[0] == first[0] && (first + second)[1..] == first[1..] + second;
      RunsConcatenate(Next(s, first[0]), first[1..], second);
    }
  }

  lemma {:induction false} Renewals(p: ProcessId, t: real, n: nat) returns (events: seq<Event>)
    ensures Run(Alone(p, t), events) && TimelyRun(Alone(p, t), events)
    ensures Exec(Alone(p, t), events) == Alone(p, t + 5.0 * n as real)
    decreases n
  {
    if n == 0 {
      events := [];
    } else {
      var round := [Tick(5.0), RenewGet(p), RenewExpire(p)];
      OneRenewal(p, t);
      var later := Renewals(p, t + 5.0, n - 1);
      RunsConcatenate(Alone(p, t), round, later);
      events := round + later;
      assert t + 5.0 + 5.0 * (n - 1) as real == t + 5.0 * n as real;
    }
  }

  /** The bound can be met for as long as one likes: a process alone that renews when its
      renewal is due is leader after n renewals, 5n seconds later. */
  lemma LongReign(p: ProcessId, n: nat) returns (events: seq<Event>)
    ensures Run(INITIAL, events) && TimelyRun(INITIAL, events)
    ensures IsLeader(Exec(INITIAL, events), p) && Exec(INITIAL, events).now == 5.0 * n as real
  {
    var first := [Start(p), TryAcquire(p)];
    var s1 := Next(INITIAL, Start(p));
    OneEvent(s1, TryAcquire(p));
    assert first[1..] == [TryAcquire(p)] && [TryAcquire(p)][1..] == [];
    assert TimelyRun(s1, [TryAcquire(p)]);
    assert Exec(INITIAL, first) == Alone(p, 0.0);
    var later := Renewals(p, 0.0, n);
    RunsConcatenate(INITIAL, first, later);
    events := first + later;
  }

  // ---------------------------------------------------------------- takeover

  /** The key lives for TTL from the last refresh, and w, if it waits, has an attempt due: at
      once if it just started, else within RETRY of a moment when the key lived. */
  ghost predicate Waited(s: System, w: ProcessId) {
    && (s.key.Some? ==> s.key.value.expiry <= s.lastRefresh + LOCK_TTL)
    && s.lastRefresh <= s.now
    && (w in s.processes && s.processes[w].phase.Waiting? ==>
          if s.processes[w].phase.tried
          then s.processes[w].phase.next < s.lastRefresh + LOCK_TTL + RETRY_INTERVAL
          else s.processes[w].phase.next <= s.now)
  }

  lemma StepKeepsWaited(s: System, e: Event, w: ProcessId)
    requires Waited(s, w) && Enabled(s, e)
    ensures Waited(Next(s, e), w)
  {
  }

  lemma {:induction false} RunKeepsWaited(s: System, events: seq<Event>, w: ProcessId)
    requires Waited(s, w) && Run(s, events)
    ensures Waited(Exec(s, events), w)
    decreases |events|
  {
    if events != [] {
      StepKeepsWaited(s, events[0], w);
      RunKeepsWaited(Next(s, events[0]), events[1..], w);
    }
  }

  /** The event sets the key anew, which makes its process leader, or extends a live one. */
  predicate Refreshes(s: System, e: Event) {
    (e.TryAcquire? && !Live(s)) || (e.RenewExpire? && Live(s))
  }

  /** Some event of the run does. */
  ghost predicate Refreshed(s: System, events: seq<Event>)
    requires Run(s, events)
    decreases |events|
  {
    events != [] && (Refreshes(s, events[0]) || Refreshed(Next(s, events[0]), events[1..]))
  }

  ghost predicate Survives(events: seq<Event>, w: ProcessId) {
    forall e :: e in events ==> e != Crash(w)
  }

  lemma StaleStep(s: System, e: Event, w: ProcessId)
    requires Waited(s, w) && Enabled(s, e) && Punctual(s, e, w) && e != Crash(w)
    requires w in s.processes && s.processes[w].phase.Waiting?
    requires !Refreshes(s, e)
    ensures
      var t := Next(s, e);
      && Waited(t, w)
      && w in t.processes && t.processes[w].phase.Waiting?
      && t.lastRefresh == s.lastRefresh
      && (t.now == s.now || t.now < s.lastRefresh + LOCK_TTL + RETRY_INTERVAL)
  {
    StepKeepsWaited(s, e, w);
  }

  lemma {:induction false} StaleRun(s: System, events: seq<Event>, w: ProcessId)
    requires Waited(s, w) && Run(s, events) && PunctualRun(s, events, w)
    requires w in s.processes && s.processes[w].phase.Waiting? && Survives(events, w)
    requires !Refreshed(s, events)
    ensures
      var t := Exec(s, events);
      t.now == s.now || t.now < s.lastRefresh + LOCK_TTL + RETRY_INTERVAL
    decreases |events|
  {
    if events != [] {
      assert events[0] in events;
      assert forall e :: e in events[1..] ==> e in events;
      StaleStep(s, events[0], w);
      StaleRun(Next(s, events[0]), events[1..], w);
    }
  }

  /** From every reachable state, whether the holder died or hangs with its flag still set,
      and however late anyone has been: when the clock has moved to TTL + RETRY, 18 seconds,
      after the last refresh while one process was waiting and attempted when due, the key has
      been set anew, by a process that became leader then, or extended while it lived. */
  lemma TakeoverBound(history: seq<Event>, events: seq<Event>, w: ProcessId)
    requires Run(INITIAL, history)
    requires
      var s := Exec(INITIAL, history);
      && w in s.processes && s.processes[w].phase.Waiting? && Survives(events, w)
      && Run(s, events) && PunctualRun(s, events, w)
      && Exec(s, events).now > s.now
      && Exec(s, events).now >= s.lastRefresh + 18.0
    ensures Refreshed(Exec(INITIAL, history), events)
  {
    var s := Exec(INITIAL, history);
    RunKeepsWaited(INITIAL, history, w);
    if !Refreshed(s, events) {
      StaleRun(s, events, w);
    }
  }

  /** What such an event does. */
  lemma RefreshMeans(s: System, e: Event)
    requires Enabled(s, e) && Refreshes(s, e)
    ensures
      var t := Next(s, e);
      && Live(t) && t.key.value.expiry == t.now + LOCK_TTL && t.lastRefresh == t.now
      && (e.TryAcquire? ==> IsLeader(t, e.p) && Holds(t, e.p))
      && (e.RenewExpire? ==> t.key.value.holder == s.key.value.holder)
  {
  }

  // ---------------------------------------------------------------- one process's code

  /** The event is one of p's. */
  ghost predicate By(e: Event, p: ProcessId) {
    match e
    case Tick(_) => false
    case Start(q) => q == p
    case Crash(q) => q == p
    case TryAcquire(q) => q == p
    case RenewGet(q) => q == p
    case RenewExpire(q) => q == p
    case BeginRelease(q) => q == p
    case ReleaseGet(q) => q == p
    case ReleaseDelete(q) => q == p
  }

  ghost predicate ByOthers(events: seq<Event>, p: ProcessId) {
    forall e :: e in events ==> !By(e, p)
  }

  /** The world: Redis, the clock, and every process that uses the lock. */
  class World {
    var state: System

    constructor ()
      ensures state == INITIAL
    {
      state := INITIAL;
    }

    /** Others run while p awaits.  This body is the quiet case; callers know the contract
        alone. */
    method Await(p: ProcessId) returns (ghost events: seq<Event>)
      requires p in state.processes
      modifies this
      ensures Run(old(state), events) && ByOthers(events, p)
      ensures state == Exec(old(state), events)
      ensures p in state.processes && state.processes[p] == old(state.processes[p])
      // The latency bound is met.
      ensures old(Inv(state)) ==> TimelyRun(old(state), events) && Inv(state)
    {
      events := [];
    }
  }

  lemma RenewGetKeeps(s: System, p: ProcessId)
    requires Enabled(s, RenewGet(p))
    ensures Inv(s) ==> Holds(s, p) && Inv(Next(s, RenewGet(p)))
  {
    if Inv(s) {
      StepKeepsInv(s, RenewGet(p));
      assert IsLeader(s, p);
    }
  }

  lemma RenewExpireKeeps(s: System, p: ProcessId)
    requires Enabled(s, RenewExpire(p))
    ensures Inv(s) ==> Holds(s, p) && Inv(Next(s, RenewExpire(p)))
  {
    if Inv(s) {
      StepKeepsInv(s, RenewExpire(p));
      assert IsLeader(s, p);
    }
  }

  lemma ReleaseStepKeeps(s: System, e: Event)
    requires Enabled(s, e) && (e.BeginRelease? || e.ReleaseGet? || e.ReleaseDelete?)
    ensures Inv(s) ==> Inv(Next(s, e)) && (IsLeader(s, e.p) ==> Holds(s, e.p))
  {
    if Inv(s) {
      StepKeepsInv(s, e);
    }
  }

  class Lock {
    const world: World
    const me: ProcessId
    var isLeader: bool

    constructor (world: World, me: ProcessId)
      ensures this.world == world && this.me == me && !isLeader
    {
      this.world, this.me, isLeader := world, me, false;
    }

    /** The flag agrees with the protocol's view of this process. */
    ghost predicate Linked()
      reads this, world
    {
      me in world.state.processes && isLeader == IsLeader(world.state, me)
    }

    ghost predicate Valid()
      reads this, world
    {
      Inv(world.state) && Linked()
    }

    method TryAcquire() returns (acquired: bool)
      requires Valid() && world.state.processes[me].phase.Waiting?
        && world.state.processes[me].phase.next <= world.state.now
      modifies this, world
      ensures Valid() && isLeader == acquired == !Live(old(world.state))
      ensures world.state == Next(old(world.state), Event.TryAcquire(me))
      ensures acquired ==>
        && world.state.key == Some(Key(me, world.state.now + 15.0))
        && world.state.processes[me].phase == Sleeping(world.state.now + 5.0)
      ensures !acquired ==>
        && world.state.key == old(world.state.key)
        && world.state.processes[me].phase == Waiting(world.state.now + 3.0, true)
    {
      StepKeepsInv(world.state, Event.TryAcquire(me));
      acquired := !Live(world.state);
      world.state := Next(world.state, Event.TryAcquire(me));
      isLeader := acquired;
    }

    /** One round of the renew loop, from its GET: if the key is another's by then,
        leadership is given up.  Within the latency bound it is not: the leader stays leader
        and the key is freshly its own, whatever others did between the two commands. */
    method RenewOnce() returns (kept: bool)
      requires Linked() && isLeader
      requires world.state.processes[me].phase.Sleeping? && world.state.processes[me].phase.wake <= world.state.now
      modifies this, world
      ensures Linked() && isLeader == kept == old(Holds(world.state, me))
      ensures !kept ==> world.state == Goes(old(world.state), me, Lost)
      ensures old(Inv(world.state)) ==>
        && Inv(world.state) && kept
        && world.state.key == Some(Key(me, world.state.now + 15.0))
        && world.state.processes[me].phase == Sleeping(world.state.now + 5.0)
    {
      kept := Holds(world.state, me);
      RenewGetKeeps(world.state, me);
      world.state := Next(world.state, RenewGet(me));
      if !kept {
        isLeader := false;
        return;
      }
      ghost var events := world.Await(me);
      RenewExpireKeeps(world.state, me);
      world.state := Next(world.state, RenewExpire(me));
    }

    /** Releasing gives up leadership, and deletes the key exactly if the GET found it to be
        this process's own; `seen` is the state of that GET, `before` that of the DELETE.
        Within the latency bound the key that goes is this process's own. */
    method Release() returns (ghost seen: System, ghost before: System)
      requires Linked()
      requires !world.state.processes[me].phase.Waiting? && !world.state.processes[me].phase.Released?
      requires !world.state.processes[me].phase.Releasing? && !world.state.processes[me].phase.Deleting?
      modifies this, world
      ensures Linked() && !isLeader
      ensures world.state.processes[me].phase.Released?
      ensures me in seen.processes && me in before.processes
      ensures old(isLeader) && Holds(seen, me) ==> world.state == Goes(before, me, Released).(key := None)
      ensures !(old(isLeader) && Holds(seen, me)) ==> world.state == Goes(seen, me, Released)
      ensures old(Inv(world.state)) ==> Inv(world.state)
      ensures old(Inv(world.state)) && old(isLeader) ==> Holds(seen, me) && Holds(before, me)
    {
      ReleaseStepKeeps(world.state, BeginRelease(me));
      seen, before := world.state, world.state;
      world.state := Next(world.state, BeginRelease(me));
      if !isLeader {
        return;
      }
      ghost var events := world.Await(me);
      seen := world.state;
      var holder := Holds(world.state, me);
      ReleaseStepKeeps(world.state, ReleaseGet(me));
      world.state := Next(world.state, ReleaseGet(me));
      if holder {
        events := world.Await(me);
        before := world.state;
        ReleaseStepKeeps(world.state, ReleaseDelete(me));
        world.state := Next(world.state, ReleaseDelete(me));
      }
      isLeader := false;
    }
  }
}

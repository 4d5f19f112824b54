/** The ClickHouse server as the pool sees it, and the connection manager that retries on
    transient errors. */
module ClickHouse {
  import opened Wrappers
  import opened Rows

  /** A record's coordinates: topic, partition, offset. */
  datatype Coord = Coord(topic: string, partition: nat, offset: nat)

  /** A stored row.  `origin` says which record it came from; the table itself has no such
      column, it is here so that rows can be counted against records. */
  datatype Stored = Stored(row: Row, origin: Coord)

  datatype Reason = Unmappable | InsertFailed

  datatype DeadLetter = DeadLetter(pipelineId: string, origin: Coord, table: string, reason: Reason, payload: string)

  datatype Store = Store(tables: map<string, seq<Stored>>, dlq: seq<DeadLetter>)

  /** The statements the pool sends. */
  datatype Statement =
    | CreateTable(table: string)
    | Insert(table: string, rows: seq<Stored>)
    | InsertDeadLetters(letters: seq<DeadLetter>)

  /** What an attempt comes back with: success, an error in the retryable classes, or any
      other error. */
  datatype Outcome = Done | Transient | Fatal

  /** How the server treats failures.  Ambiguous: an insert that raised may have been
      applied.  Atomic: raised means not applied.  ByRow: in addition the server is
      reachable, an insert of rows succeeds exactly if each of them is acceptable, which
      does not depend on their ingestion times, and every other statement succeeds. */
  datatype Mode = Ambiguous | Atomic | ByRow

  function RowsIn(s: Store, table: string): seq<Stored> {
    if table in s.tables then s.tables[table] else []
  }

  function Apply(s: Store, statement: Statement): Store {
    match statement
    case CreateTable(t) => s.(tables := s.tables[t := RowsIn(s, t)])
    case Insert(t, rows) => s.(tables := s.tables[t := RowsIn(s, t) + rows])
    case InsertDeadLetters(letters) => s.(dlq := s.dlq + letters)
  }

  function ApplyTimes(s: Store, statement: Statement, n: nat): Store {
    if n == 0 then s else Apply(ApplyTimes(s, statement, n - 1), statement)
  }

  /** A row without the one cell that depends on when it was made. */
  function WithoutIngestion(row: Row): Row {
    map k | k in row && k != "ingested_at" :: row[k]
  }

  predicate Accepted(accepts: Row -> bool, row: Row) {
    accepts(WithoutIngestion(row))
  }

  predicate AllAcceptable(accepts: Row -> bool, rows: seq<Stored>) {
    forall r :: r in rows ==> Accepted(accepts, r.row)
  }

  lemma ApplyOnceMore(s: Store, statement: Statement, n: nat, once: nat)
    requires once <= 1
    ensures ApplyTimes(ApplyTimes(s, statement, n), statement, once) == ApplyTimes(s, statement, n + once)
  {
    assert ApplyTimes(ApplyTimes(s, statement, n), statement, 0) == ApplyTimes(s, statement, n);
    assert ApplyTimes(ApplyTimes(s, statement, n), statement, 1) == Apply(ApplyTimes(s, statement, n), statement);
  }

  /** What a reachable server does with the statement. */
  predicate Succeeds(accepts: Row -> bool, statement: Statement) {
    statement.Insert? ==> AllAcceptable(accepts, statement.rows)
  }

  class Server {
    const mode: Mode
    const accepts: Row -> bool
    var store: Store

    constructor (mode: Mode, accepts: Row -> bool)
      ensures this.mode == mode && this.accepts == accepts
      ensures store == Store(map[], [])
    {
      this.mode, this.accepts, this.store := mode, accepts, Store(map[], []);
    }

    /** One attempt over the network. */
    method Attempt(statement: Statement) returns (outcome: Outcome)
      modifies this
      ensures outcome.Done? ==> store == Apply(old(store), statement)
      ensures !outcome.Done? ==>
        store == old(store) || (mode.Ambiguous? && store == Apply(old(store), statement))
      ensures mode.ByRow? ==> (outcome.Done? <==> Succeeds(accepts, statement))
    {
      var fails, applied, transient := *, *, *;
      if mode.ByRow? {
        fails := !Succeeds(accepts, statement);
      }
      if !fails || (applied && mode.Ambiguous?) {
        store := Apply(store, statement);
      }
      outcome := if !fails then Done else if transient then Transient else Fatal;
    }
  }

  // ---------------------------------------------------------------- backoff

  function MinReal(a: real, b: real): real {
    if a <= b then a else b
  }

  function Sum(s: seq<real>): real {
    if s == [] then 0.0 else Sum(s[..|s| - 1]) + s[|s| - 1]
  }

  /** base, doubled i times. */
  function Doubled(base: real, i: nat): real {
    if i == 0 then base else 2.0 * Doubled(base, i - 1)
  }

  /** The i-th sleep: base, then doubling, clipped at max. */
  function Backoff(base: real, max: real, i: nat): real {
    if i == 0 then base else MinReal(Doubled(base, i), max)
  }

  lemma {:induction false} DoubledGrows(base: real, m: nat, n: nat)
    requires 0.0 <= base && m <= n
    ensures base <= Doubled(base, m) <= Doubled(base, n)
  {
    if m < n {
      DoubledGrows(base, m, n - 1);
    } else if m > 0 {
      DoubledGrows(base, m - 1, n - 1);
    }
  }

  /** One doubling, clipped: the loop's update takes each backoff to the next. */
  lemma NextBackoff(base: real, max: real, i: nat)
    requires 0.0 <= base && 0.0 <= max
    ensures MinReal(Backoff(base, max, i) * 2.0, max) == Backoff(base, max, i + 1)
  {
    assert Doubled(base, i + 1) == 2.0 * Doubled(base, i);
    if Doubled(base, i) <= max {
      assert i > 0 ==> Backoff(base, max, i) == Doubled(base, i);
    } else {
      assert i > 0 ==> Backoff(base, max, i) == max;
      assert MinReal(max * 2.0, max) == max;
    }
  }

  function Twice(last: real, max: real): real {
    if 2.0 * last <= max then 2.0 * last else max
  }

  /** The first sleep is the base, every other twice the one before, clipped. */
  ghost predicate Doubling(sleeps: seq<real>, base: real, max: real) {
    && (sleeps != [] ==> sleeps[0] == base)
    && forall i, j :: 0 <= i && j == i + 1 && j < |sleeps| ==> sleeps[j] == Twice(sleeps[i], max)
  }

  /** The loop's next sleep. */
  function NextSleep(sleeps: seq<real>, base: real, max: real): real {
    if sleeps == [] then base else Twice(sleeps[|sleeps| - 1], max)
  }

  lemma OneMoreSleep(sleeps: seq<real>, base: real, max: real)
    requires Doubling(sleeps, base, max)
    ensures Doubling(sleeps + [NextSleep(sleeps, base, max)], base, max)
  {
  }

  /** So the i-th sleep is the base doubled i times, clipped. */
  lemma {:induction false} DoublingIs(sleeps: seq<real>, base: real, max: real, i: nat)
    requires Doubling(sleeps, base, max) && 0.0 <= base && 0.0 <= max && i < |sleeps|
    ensures sleeps[i] == Backoff(base, max, i)
  {
    if i > 0 {
      DoublingIs(sleeps, base, max, i - 1);
      NextBackoff(base, max, i - 1);
    }
  }

  /** A call's whole sleep is at most base times 2^n - 1 after n sleeps ... */
  lemma {:induction false} SleepIsGeometric(sleeps: seq<real>, base: real, max: real)
    requires 0.0 <= base <= max
    requires forall i :: 0 <= i < |sleeps| ==> sleeps[i] == Backoff(base, max, i)
    ensures Sum(sleeps) <= Doubled(base, |sleeps|) - base
  {
    if sleeps != [] {
      SleepIsGeometric(sleeps[..|sleeps| - 1], base, max);
    }
  }

  /** n times max. */
  function Times(n: nat, max: real): real {
    if n == 0 then 0.0 else Times(n - 1, max) + max
  }

  lemma {:induction false} TimesGrows(m: nat, n: nat, max: real)
    requires 0.0 <= max && m <= n
    ensures Times(m, max) <= Times(n, max)
  {
    if m < n {
      TimesGrows(m, n - 1, max);
    }
  }

  /** ... and at most n times max. */
  lemma {:induction false} SleepIsLinear(sleeps: seq<real>, base: real, max: real)
    requires 0.0 <= base <= max
    requires forall i :: 0 <= i < |sleeps| ==> sleeps[i] == Backoff(base, max, i)
    ensures Sum(sleeps) <= Times(|sleeps|, max)
  {
    if sleeps != [] {
      SleepIsLinear(sleeps[..|sleeps| - 1], base, max);
    }
  }

  /** Whatever the number of attempts, the two bounds for max_retries hold. */
  lemma SleepIsBoundedByBase(sleeps: seq<real>, base: real, max: real, maxRetries: nat)
    requires 0.0 <= base <= max
    requires |sleeps| <= maxRetries && Doubling(sleeps, base, max)
    ensures Sum(sleeps) <= Doubled(base, maxRetries) - base
  {
    forall i: nat | i < |sleeps| ensures sleeps[i] == Backoff(base, max, i) {
      DoublingIs(sleeps, base, max, i);
    }
    SleepIsGeometric(sleeps, base, max);
    DoubledGrows(base, |sleeps|, maxRetries);
  }

  lemma SleepIsBoundedByMax(sleeps: seq<real>, base: real, max: real, maxRetries: nat)
    requires 0.0 <= base <= max
    requires |sleeps| <= maxRetries && Doubling(sleeps, base, max)
    ensures Sum(sleeps) <= Times(maxRetries, max)
  {
    forall i: nat | i < |sleeps| ensures sleeps[i] == Backoff(base, max, i) {
      DoublingIs(sleeps, base, max, i);
    }
    SleepIsLinear(sleeps, base, max);
    TimesGrows(|sleeps|, maxRetries, max);
  }

  // ---------------------------------------------------------------- the manager

  class Manager {
    const server: Server
    const maxRetries: nat
    const base: real
    const max: real
    var connected: bool

    constructor (server: Server, maxRetries: nat, base: real, max: real)
      ensures this.server == server && this.maxRetries == maxRetries && this.base == base && this.max == max
    {
      this.server, this.maxRetries, this.base, this.max := server, maxRetries, base, max;
      connected := true;
    }

    /** One attempt.  Getting a client may fail as well, before anything is sent. */
    method TryOnce(statement: Statement) returns (outcome: Outcome, ghost applied: nat)
      modifies this, server
      ensures server.store == ApplyTimes(old(server.store), statement, applied)
      ensures applied <= 1
      ensures outcome.Done? ==> connected && applied == 1
      ensures !outcome.Done? && !server.mode.Ambiguous? ==> applied == 0
      ensures server.mode.ByRow? ==> (outcome.Done? <==> Succeeds(server.accepts, statement))
    {
      var unreachable, transient := *, *;
      if !connected && unreachable && !server.mode.ByRow? {
        outcome, applied := if transient then Transient else Fatal, 0;
        return;
      }
      connected := true;
      outcome := server.Attempt(statement);
      applied := if server.store != old(server.store) || outcome.Done? then 1 else 0;
      assert ApplyTimes(old(server.store), statement, 1) == Apply(old(server.store), statement);
    }

    /** Runs one statement, reconnecting and retrying after transient errors.  `outcomes` are
        those of all attempts, `applied` is how often the server applied the statement. */
    method Execute(statement: Statement)
        returns (outcome: Outcome, outcomes: seq<Outcome>, sleeps: seq<real>, ghost applied: nat)
      modifies this, server
      ensures 1 <= |outcomes| <= maxRetries + 1
      // Exactly the transient errors are retried, while retries are left.
      ensures outcomes[|outcomes| - 1] == outcome && forall i :: 0 <= i < |outcomes| - 1 ==> outcomes[i] == Transient
      ensures outcome.Transient? ==> |outcomes| == maxRetries + 1 && !connected
      ensures |sleeps| == |outcomes| - 1 && Doubling(sleeps, base, max)
      ensures server.store == ApplyTimes(old(server.store), statement, applied)
      ensures applied <= |outcomes|
      ensures outcome.Done? ==> connected && applied >= 1
      ensures !server.mode.Ambiguous? ==> applied == if outcome.Done? then 1 else 0
      ensures server.mode.ByRow? ==> (outcome.Done? <==> Succeeds(server.accepts, statement))
    {
      hide Doubling, Succeeds, ApplyTimes;
      var backoff, attempts := base, 0;
      outcome, outcomes, sleeps, applied := Transient, [], [], 0;
      NoSleeps(base, max);
      NotApplied(server.store, statement);
      while attempts <= maxRetries
        invariant |outcomes| == attempts <= maxRetries + 1
        invariant outcome == Transient && forall i :: 0 <= i < attempts ==> outcomes[i] == Transient
        invariant attempts > 0 ==> !connected
        invariant |sleeps| == if attempts <= maxRetries then attempts else maxRetries
        invariant Doubling(sleeps, base, max) && backoff == NextSleep(sleeps, base, max)
        invariant server.store == ApplyTimes(old(server.store), statement, applied)
        invariant applied <= attempts
        invariant !server.mode.Ambiguous? ==> applied == 0
        invariant attempts > 0 && server.mode.ByRow? ==> !Succeeds(server.accepts, statement)
      {
        ghost var once;
        outcome, once := TryOnce(statement);
        ApplyOnceMore(old(server.store), statement, applied, once);
        applied := applied + once;
        attempts, outcomes := attempts + 1, outcomes + [outcome];
        if !outcome.Transient? {
          return;
        }
        connected := false;
        if attempts <= maxRetries {
          OneMoreSleep(sleeps, base, max);
          sleeps := sleeps + [backoff];
          backoff := MinReal(backoff * 2.0, max);
        }
      }
    }
  }

  lemma NoSleeps(base: real, max: real)
    ensures Doubling([], base, max)
  {
  }

  lemma NotApplied(s: Store, statement: Statement)
    ensures ApplyTimes(s, statement, 0) == s
  {
  }
}

/** The Redis repository: pipeline configs and states by pipeline id, and one collection
    counter per user. */
module Repository {
  import opened Wrappers
  import opened Models

  const NEW_STATE := PipelineState(WantStopped, Created, None, "")

  /** The arguments of update_state; None leaves a field alone. */
  datatype Update = Update(desired: Option<DesiredState>, status: Option<Status>, lastError: Option<string>,
                           producer: Option<Option<string>>)

  const NOTHING := Update(None, None, None, None)

  function Or<T>(change: Option<T>, current: T): T {
    match change
    case Some(x) => x
    case None => current
  }

  function Updated(s: PipelineState, u: Update): PipelineState {
    PipelineState(Or(u.desired, s.desired), Or(u.status, s.status), Or(u.producer, s.producer),
                  Or(u.lastError, s.lastError))
  }

  /** n is the largest collection number among the user's configs, or 0 if there is none. */
  ghost predicate LargestUsed(n: int, configs: map<string, PipelineConfig>, user: string) {
    && (forall p :: p in configs && configs[p].userId == user ==> configs[p].collectionNumber <= n)
    && ((exists p :: p in configs && configs[p].userId == user && configs[p].collectionNumber == n)
        || (n == 0 && forall p :: p in configs ==> configs[p].userId != user))
  }

  class PipelineRepository {
    var configs: map<string, PipelineConfig>
    var states: map<string, PipelineState>
    var counters: map<string, int>

    constructor ()
      ensures configs == map[] && states == map[] && counters == map[]
    {
      configs, states, counters := map[], map[], map[];
    }

    method GetConfig(pipelineId: string) returns (config: Option<PipelineConfig>)
      ensures config == if pipelineId in configs then Some(configs[pipelineId]) else None
    {
      config := if pipelineId in configs then Some(configs[pipelineId]) else None;
    }

    method GetState(pipelineId: string) returns (state: Option<PipelineState>)
      ensures state == if pipelineId in states then Some(states[pipelineId]) else None
    {
      state := if pipelineId in states then Some(states[pipelineId]) else None;
    }

    /** False where the source raises "already exists". */
    method CreatePipeline(config: PipelineConfig) returns (created: bool)
      modifies `configs, `states
      ensures created == (config.pipelineId !in old(configs))
      ensures configs == if created then old(configs)[config.pipelineId := config] else old(configs)
      ensures states == if created then old(states)[config.pipelineId := NEW_STATE] else old(states)
    {
      var existing := GetConfig(config.pipelineId);
      if existing.Some? {
        return false;
      }
      configs := configs[config.pipelineId := config];
      states := states[config.pipelineId := NEW_STATE];
      created := true;
    }

    method DeletePipeline(pipelineId: string)
      modifies `configs, `states
      ensures configs == old(configs) - {pipelineId}
      ensures states == old(states) - {pipelineId}
    {
      configs := configs - {pipelineId};
      states := states - {pipelineId};
    }

    /** None where the source raises KeyError. */
    method UpdateState(pipelineId: string, update: Update) returns (state: Option<PipelineState>)
      modifies `states
      ensures pipelineId !in old(states) ==> state == None && states == old(states)
      ensures pipelineId in old(states) ==>
        && state == Some(Updated(old(states)[pipelineId], update))
        && states == old(states)[pipelineId := Updated(old(states)[pipelineId], update)]
    {
      state := GetState(pipelineId);
      if state == None {
        return;
      }
      var s := state.value;
      if update.desired.Some? {
        s := s.(desired := update.desired.value);
      }
      if update.status.Some? {
        s := s.(status := update.status.value);
      }
      if update.lastError.Some? {
        s := s.(lastError := update.lastError.value);
      }
      if update.producer.Some? {
        s := s.(producer := update.producer.value);
      }
      states := states[pipelineId := s];
      state := Some(s);
    }

    /** The numbers in use, looked at one config after the other. */
    method MaxUsed(user: string) returns (n: int)
      ensures LargestUsed(n, configs, user)
    {
      n := 0;
      var found, todo := false, configs.Keys;
      while todo != {}
        invariant todo <= configs.Keys
        invariant forall p :: p in configs && p !in todo && configs[p].userId == user ==>
          found && configs[p].collectionNumber <= n
        invariant if found
          then exists p :: p in configs && configs[p].userId == user && configs[p].collectionNumber == n
          else n == 0
        decreases todo
      {
        var p :| p in todo;
        if configs[p].userId == user && (!found || configs[p].collectionNumber > n) {
          found, n := true, configs[p].collectionNumber;
        }
        todo := todo - {p};
      }
    }

    /** One call that nothing interrupts: the counter is seeded from the configs if the user
        has none, then incremented.  Interleaved calls are the subject of module
        CollectionCounter. */
    method NextCollectionNumber(user: string) returns (n: int)
      modifies `counters
      ensures user in old(counters) ==> n == old(counters)[user] + 1
      ensures user !in old(counters) ==> LargestUsed(n - 1, configs, user)
      ensures counters == old(counters)[user := n]
    {
      if user !in counters {
        var used := MaxUsed(user);
        counters := counters[user := used];
      }
      n := counters[user] + 1;
      counters := counters[user := n];
    }
  }
}

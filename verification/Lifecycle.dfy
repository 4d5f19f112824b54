/** The task manager's lifecycle requests over the stored records and the Kubernetes runtime,
    whose calls may fail before or after they take effect. */
module Lifecycle {
  import opened Wrappers
  import opened Models
  import opened Repository
  import Delivery
  import DrainAndDelete
  import Naming
  import Routing

  // ---------------------------------------------------------------- the runtime

  /** How a call to the cluster ends: Refused raises and changes nothing, Lost takes effect
      and raises all the same. */
  datatype Fault = NoFault | Refused | Lost

  function DeploymentName(id: string): string {
    "producer-" + id
  }

  lemma DeploymentNameIsInjective(id: string, other: string)
    requires DeploymentName(id) == DeploymentName(other)
    ensures id == other
  {
    assert DeploymentName(id)[9..] == id;
    assert DeploymentName(other)[9..] == other;
  }

  /** The Deployments' replica counts by name, and the adapter's calls. */
  class KubernetesRuntime {
    var replicas: map<string, nat>

    constructor (replicas: map<string, nat>)
      ensures this.replicas == replicas
    {
      this.replicas := replicas;
    }

    /** Created, or patched where it exists. */
    method ApplyDeployment(name: string, fault: Fault) returns (ok: bool)
      modifies this
      ensures ok == fault.NoFault?
      ensures replicas == if fault.Refused? then old(replicas) else old(replicas)[name := 1]
    {
      if !fault.Refused? {
        replicas := replicas[name := 1];
      }
      ok := fault.NoFault?;
    }

    /** A Deployment that does not exist counts as scaled down. */
    method ScaleToZero(name: string, fault: Fault) returns (ok: bool)
      modifies this
      ensures ok == fault.NoFault?
      ensures replicas == if fault.Refused? || name !in old(replicas) then old(replicas) else old(replicas)[name := 0]
    {
      if !fault.Refused? && name in replicas {
        replicas := replicas[name := 0];
      }
      ok := fault.NoFault?;
    }

    method StartLivePipeline(id: string, fault: Fault) returns (producer: Option<string>)
      modifies this
      ensures producer == if fault.NoFault? then Some(DeploymentName(id)) else None
      ensures replicas == Applied(old(replicas), id, fault)
    {
      var ok := ApplyDeployment(DeploymentName(id), fault);
      producer := if ok then Some(DeploymentName(id)) else None;
    }

    method StopLivePipeline(id: string, fault: Fault) returns (ok: bool)
      modifies this
      ensures ok == fault.NoFault?
      ensures replicas == ScaledDown(old(replicas), id, fault)
    {
      ok := ScaleToZero(DeploymentName(id), fault);
    }

    /** Applies the Deployment again and then rolls its pods, which leaves the replica count
        alone. */
    method RestartLivePipeline(id: string, apply: Fault, rollout: Fault) returns (producer: Option<string>)
      modifies this
      ensures producer == if apply.NoFault? && rollout.NoFault? then Some(DeploymentName(id)) else None
      ensures replicas == Applied(old(replicas), id, apply)
    {
      var ok := ApplyDeployment(DeploymentName(id), apply);
      if !ok {
        return None;
      }
      producer := if rollout.NoFault? then Some(DeploymentName(id)) else None;
    }
  }

  function Applied(replicas: map<string, nat>, id: string, fault: Fault): map<string, nat> {
    if fault.Refused? then replicas else replicas[DeploymentName(id) := 1]
  }

  function ScaledDown(replicas: map<string, nat>, id: string, fault: Fault): map<string, nat> {
    if fault.Refused? || DeploymentName(id) !in replicas then replicas else replicas[DeploymentName(id) := 0]
  }

  // ---------------------------------------------------------------- requests

  datatype World = World(configs: map<string, PipelineConfig>, states: map<string, PipelineState>,
                         replicas: map<string, nat>)

  datatype Response = Answered(message: string) | Rejected(code: int)

  /** A request with how the outside world takes part in it.  A create request comes with
      the config that the handler has built for it. */
  datatype Request =
    | Create(config: PipelineConfig, provisioned: bool)
    | Start(id: string, fault: Fault)
    | Stop(id: string, fault: Fault)
    | Restart(id: string, apply: Fault, rollout: Fault)
    | Delete(id: string, fault: Fault, drained: bool, topicDeleted: bool)

  function Replicas(w: World, id: string): nat {
    if DeploymentName(id) in w.replicas then w.replicas[DeploymentName(id)] else 0
  }

  /** Why lifecycle calls on this pipeline are turned away at once, if they are. */
  function TurnedAway(configs: map<string, PipelineConfig>, id: string): Option<Response> {
    if id !in configs then Some(Rejected(404))
    else if configs[id].pipelineType == Normal then Some(Rejected(400))
    else None
  }

  predicate IsLive(w: World, id: string) {
    id in w.configs && w.configs[id].pipelineType == Live && id in w.states
  }

  function WithState(w: World, id: string, s: PipelineState): World {
    w.(states := w.states[id := s])
  }

  /** Where a request takes the stored records and the cluster. */
  function Handle(w: World, r: Request): (World, Response) {
    match r
    case Create(config, provisioned) => HandleCreate(w, config, provisioned)
    case Start(id, fault) => HandleStart(w, id, fault)
    case Stop(id, fault) => HandleStop(w, id, fault)
    case Restart(id, apply, rollout) => HandleRestart(w, id, apply, rollout)
    case Delete(id, fault, drained, topicDeleted) => HandleDelete(w, id, fault, drained, topicDeleted)
  }

  /** The pipeline's table has a name.  Provisioning needs it, and so does the response. */
  predicate HasTable(config: PipelineConfig) {
    Naming.Identifier(config.userId, config.collectionNumber, config.tableName).Some?
  }

  function HandleCreate(w: World, config: PipelineConfig, provisioned: bool): (World, Response) {
    var id := config.pipelineId;
    if id in w.configs then (w, Rejected(409))
    else if config.pipelineType == Live && !(provisioned && HasTable(config)) then (Forgotten(w, id), Rejected(502))
    else
      (w.(configs := w.configs[id := config], states := w.states[id := NEW_STATE]),
       if HasTable(config) then Answered("Created") else Rejected(500))
  }

  function HandleStart(w: World, id: string, fault: Fault): (World, Response) {
    var away := TurnedAway(w.configs, id);
    if away.Some? then (w, away.value)
    else if id !in w.states then (w, Rejected(500))
    else if w.states[id].desired == WantRunning then (w, Answered("Already running"))
    else
      var s := w.states[id];
      var w' := w.(replicas := Applied(w.replicas, id, fault));
      if fault.NoFault?
        then (WithState(w', id, PipelineState(WantRunning, Running, Some(DeploymentName(id)), "")), Answered("Started"))
        else (WithState(w', id, PipelineState(WantStopped, Failed, s.producer, ERROR)), Rejected(502))
  }

  function HandleStop(w: World, id: string, fault: Fault): (World, Response) {
    var away := TurnedAway(w.configs, id);
    if away.Some? then (w, away.value)
    else if id !in w.states then (w, Rejected(500))
    else if w.states[id].desired == WantStopped then (w, Answered("Already stopped"))
    else
      var s := w.states[id];
      var w' := w.(replicas := ScaledDown(w.replicas, id, fault));
      if fault.NoFault?
        then (WithState(w', id, PipelineState(WantStopped, Stopped, None, "")), Answered("Stopped"))
        else (WithState(w', id, PipelineState(WantStopped, Failed, s.producer, ERROR)), Rejected(502))
  }

  function HandleRestart(w: World, id: string, apply: Fault, rollout: Fault): (World, Response) {
    var away := TurnedAway(w.configs, id);
    if away.Some? then (w, away.value)
    else if id !in w.states then (w, Rejected(404))
    else
      var s := w.states[id];
      var w' := w.(replicas := Applied(w.replicas, id, apply));
      if apply.NoFault? && rollout.NoFault?
        then (WithState(w', id, PipelineState(WantRunning, Running, Some(DeploymentName(id)), "")),
              Answered("Restarted"))
        else (WithState(w', id, PipelineState(s.desired, Failed, s.producer, ERROR)), Rejected(502))
  }

  function HandleDelete(w: World, id: string, fault: Fault, drained: bool, topicDeleted: bool): (World, Response) {
    if id !in w.configs then (w, Rejected(404))
    else if w.configs[id].pipelineType == Live then
      var (w', stopped) := HandleStop(w, id, fault);
      if stopped.Rejected? then (w', stopped)
      else if !drained then (w', Rejected(409))
      else if !topicDeleted then (w', Rejected(500))
      else (Forgotten(w', id), Answered("Deleted"))
    else (Forgotten(w, id), Answered("Deleted"))
  }

  function Forgotten(w: World, id: string): World {
    w.(configs := w.configs - {id}, states := w.states - {id})
  }

  /** Wanted running and RUNNING, with one replica, its own producer and no error. */
  predicate RunsNow(w: World, id: string) {
    && id in w.states && w.states[id] == PipelineState(WantRunning, Running, Some("producer-" + id), "")
    && "producer-" + id in w.replicas && w.replicas["producer-" + id] == 1
  }

  /** Wanted stopped and STOPPED, with no replica, producer or error. */
  predicate StoppedNow(w: World, id: string) {
    && id in w.states && w.states[id] == PipelineState(WantStopped, Stopped, None, "")
    && ("producer-" + id in w.replicas ==> w.replicas["producer-" + id] == 0)
  }

  /** FAILED with the runtime's error, wanted so, and with the producer it had. */
  predicate FailedNow(before: World, w: World, id: string, desired: DesiredState)
    requires id in before.states
  {
    id in w.states && w.states[id] == PipelineState(desired, Failed, before.states[id].producer, ERROR)
  }

  /** The call that raised did nothing, or left this many replicas. */
  predicate FaultLeaves(before: World, w: World, id: string, fault: Fault, count: nat) {
    w.replicas == if fault == Refused then before.replicas else before.replicas["producer-" + id := count]
  }

  /** Requests that are turned away change nothing. */
  predicate NotFor(before: World, w: World, id: string, response: Response, stateless: int) {
    && w == before
    && response == Rejected(if id !in before.configs then 404
                            else if before.configs[id].pipelineType == Normal then 400
                            else stateless)
  }

  /** wait_for_drain's default timeout, in seconds. */
  const DRAIN_TIMEOUT: real := 30.0

  /** The text of whatever exception the runtime raised. */
  const ERROR := "runtime error"

  // ---------------------------------------------------------------- the handlers

  /** The body of a create request; "", 0 and None all count as missing. */
  datatype CreateRequest = CreateRequest(
    pipelineId: string,
    pipelineType: PipelineType,
    hasDag: bool,
    userId: string,
    collectionNumber: int,
    tableName: string,
    schema: Schema,
    topic: string)

  function OrElse(text: string, default: string): string {
    if text != "" then text else default
  }

  function NewConfig(request: CreateRequest, number: int): PipelineConfig {
    PipelineConfig(request.pipelineId, request.pipelineType, OrElse(request.userId, "0"), number,
      OrElse(request.tableName, "events"), request.schema,
      OrElse(request.topic, Routing.DefaultTopic(request.pipelineId)))
  }

  /** The request's pipeline is stored with these fields, and its state is that of a new
      one. */
  predicate StoredAs(request: CreateRequest, number: int, before: World, w: World) {
    var id := request.pipelineId;
    && id in w.configs && w.configs - {id} == before.configs - {id}
    && w.configs[id].pipelineId == id
    && w.configs[id].pipelineType == request.pipelineType
    && w.configs[id].userId == (if request.userId != "" then request.userId else "0")
    && w.configs[id].collectionNumber == number
    && w.configs[id].tableName == (if request.tableName != "" then request.tableName else "events")
    && w.configs[id].schema == request.schema
    && w.configs[id].topic == (if request.topic != "" then request.topic else "pipeline." + id + ".events")
    && w.states == before.states[id := PipelineState(WantStopped, Created, None, "")]
  }

  class TaskManager {
    const repo: PipelineRepository
    const runtime: KubernetesRuntime

    constructor (repo: PipelineRepository, runtime: KubernetesRuntime)
      ensures this.repo == repo && this.runtime == runtime
    {
      this.repo, this.runtime := repo, runtime;
    }

    ghost function Now(): World
      reads repo, runtime
    {
      World(repo.configs, repo.states, runtime.replicas)
    }

    /** The collection number: the one asked for, or else the user's next. */
    method ChooseNumber(request: CreateRequest) returns (number: int)
      modifies repo`counters
      ensures request.collectionNumber != 0 ==>
        number == request.collectionNumber && repo.counters == old(repo.counters)
      ensures request.collectionNumber == 0 ==>
        var user := OrElse(request.userId, "0");
        && repo.counters == old(repo.counters)[user := number]
        && (if user in old(repo.counters) then number == old(repo.counters)[user] + 1
            else LargestUsed(number - 1, repo.configs, user))
    {
      if request.collectionNumber != 0 {
        number := request.collectionNumber;
      } else {
        number := repo.NextCollectionNumber(OrElse(request.userId, "0"));
      }
    }

    /** A failed provisioning rolls the record back, so the same create can be retried. */
    method CreatePipeline(request: CreateRequest, provisioned: bool) returns (response: Response, number: int)
      modifies repo
      ensures
        if request.pipelineType == Normal && !request.hasDag then response == Rejected(400) && Now() == old(Now())
        else
          && Now() == HandleCreate(old(Now()), NewConfig(request, number), provisioned).0
          && response == HandleCreate(old(Now()), NewConfig(request, number), provisioned).1
      ensures
        if request.pipelineType == Normal && !request.hasDag then response == Rejected(400)
        else if request.pipelineId in old(repo.configs) then response == Rejected(409)
        else
          var table := Naming.Identifier(
            if request.userId != "" then request.userId else "0", number,
            if request.tableName != "" then request.tableName else "events");
          response == if table.Some? && (request.pipelineType == Live ==> provisioned) then Answered("Created")
                      else if request.pipelineType == Live then Rejected(502)
                      else Rejected(500)
      ensures response == Answered("Created") || response == Rejected(500) ==>
        StoredAs(request, number, old(Now()), Now())
      ensures response == Rejected(400) || response == Rejected(409) || response == Rejected(502) ==>
        repo.configs == old(repo.configs)
      ensures runtime.replicas == old(runtime.replicas)
      ensures request.collectionNumber != 0 ==>
        number == request.collectionNumber && repo.counters == old(repo.counters)
      ensures request.collectionNumber == 0 && response.Answered? ==>
        var user := OrElse(request.userId, "0");
        && repo.counters == old(repo.counters)[user := number]
        && (if user in old(repo.counters) then number == old(repo.counters)[user] + 1
            else LargestUsed(number - 1, old(repo.configs), user))
    {
      number := request.collectionNumber;
      if request.pipelineType == Normal && !request.hasDag {
        return Rejected(400), number;
      }
      var existing := repo.GetConfig(request.pipelineId);
      if existing.Some? {
        return Rejected(409), number;
      }
      number := ChooseNumber(request);
      var config := NewConfig(request, number);
      var created := repo.CreatePipeline(config);
      if !created {
        return Rejected(409), number;
      }
      if config.pipelineType == Live && !(provisioned && HasTable(config)) {
        repo.DeletePipeline(config.pipelineId);
        assert repo.configs == old(repo.configs) - {request.pipelineId};
        assert repo.states == old(repo.states) - {request.pipelineId};
        return Rejected(502), number;
      }
      // The record stays, whatever becomes of the response.
      response := if HasTable(config) then Answered("Created") else Rejected(500);
    }

    method StartPipeline(id: string, fault: Fault) returns (response: Response)
      modifies repo, runtime
      ensures Now() == HandleStart(old(Now()), id, fault).0
      ensures response == HandleStart(old(Now()), id, fault).1
      ensures !IsLive(old(Now()), id) ==> NotFor(old(Now()), Now(), id, response, 500)
      ensures IsLive(old(Now()), id) ==>
        if old(repo.states)[id].desired == WantRunning then
          response == Answered("Already running") && Now() == old(Now())
        else if fault == NoFault then
          response == Answered("Started") && RunsNow(Now(), id)
        else
          && response == Rejected(502) && FailedNow(old(Now()), Now(), id, WantStopped)
          && FaultLeaves(old(Now()), Now(), id, fault, 1)
    {
      var away := TurnedAway(repo.configs, id);
      if away.Some? {
        return away.value;
      }
      var state := repo.GetState(id);
      if state.Some? && state.value.desired == WantRunning {
        return Answered("Already running");
      }
      state := repo.UpdateState(
        id, NOTHING.(desired := Some(WantRunning), status := Some(Starting), lastError := Some("")));
      if state.None? {
        return Rejected(500);
      }
      var producer := runtime.StartLivePipeline(id, fault);
      if producer.None? {
        state := repo.UpdateState(
          id, NOTHING.(desired := Some(WantStopped), status := Some(Failed), lastError := Some(ERROR)));
        assert repo.states == old(repo.states)[id := state.value];
        return Rejected(502);
      }
      state := repo.UpdateState(
        id, NOTHING.(status := Some(Running), producer := Some(producer), lastError := Some("")));
      response := Answered("Started");
    }

    method StopPipeline(id: string, fault: Fault) returns (response: Response)
      modifies repo, runtime
      ensures Now() == HandleStop(old(Now()), id, fault).0
      ensures response == HandleStop(old(Now()), id, fault).1
      ensures !IsLive(old(Now()), id) ==> NotFor(old(Now()), Now(), id, response, 500)
      ensures IsLive(old(Now()), id) ==>
        if old(repo.states)[id].desired == WantStopped then
          response == Answered("Already stopped") && Now() == old(Now())
        else if fault == NoFault then
          response == Answered("Stopped") && StoppedNow(Now(), id)
        else
          && response == Rejected(502) && FailedNow(old(Now()), Now(), id, WantStopped)
          && (if "producer-" + id in old(runtime.replicas) then FaultLeaves(old(Now()), Now(), id, fault, 0)
              else runtime.replicas == old(runtime.replicas))
    {
      var away := TurnedAway(repo.configs, id);
      if away.Some? {
        return away.value;
      }
      var state := repo.GetState(id);
      if state.Some? && state.value.desired == WantStopped {
        return Answered("Already stopped");
      }
      state := repo.UpdateState(id, NOTHING.(desired := Some(WantStopped), status := Some(Stopping)));
      if state.None? {
        return Rejected(500);
      }
      var ok := runtime.StopLivePipeline(id, fault);
      if !ok {
        state := repo.UpdateState(id, NOTHING.(status := Some(Failed), lastError := Some(ERROR)));
        assert repo.states == old(repo.states)[id := state.value];
        return Rejected(502);
      }
      state := repo.UpdateState(id, NOTHING.(status := Some(Stopped), producer := Some(None), lastError := Some("")));
      response := Answered("Stopped");
    }

    method RestartPipeline(id: string, apply: Fault, rollout: Fault) returns (response: Response)
      modifies repo, runtime
      ensures Now() == HandleRestart(old(Now()), id, apply, rollout).0
      ensures response == HandleRestart(old(Now()), id, apply, rollout).1
      ensures !IsLive(old(Now()), id) ==> NotFor(old(Now()), Now(), id, response, 404)
      ensures IsLive(old(Now()), id) ==>
        if apply == NoFault && rollout == NoFault then
          response == Answered("Restarted") && RunsNow(Now(), id)
        else
          && response == Rejected(502) && FailedNow(old(Now()), Now(), id, old(repo.states)[id].desired)
          && FaultLeaves(old(Now()), Now(), id, apply, 1)
    {
      var away := TurnedAway(repo.configs, id);
      if away.Some? {
        return away.value;
      }
      var state := repo.GetState(id);
      if state.None? {
        return Rejected(404);
      }
      var producer := runtime.RestartLivePipeline(id, apply, rollout);
      if producer.None? {
        state := repo.UpdateState(id, NOTHING.(status := Some(Failed), lastError := Some(ERROR)));
        assert repo.states == old(repo.states)[id := state.value];
        return Rejected(502);
      }
      state := repo.UpdateState(id,
        Update(Some(WantRunning), Some(Running), Some(""), Some(producer)));
      response := Answered("Restarted");
    }

    /** Stop, drain, delete the topic, and only then the record.  `drained` and
        `topicDeleted` are what the two calls to the cluster answered; `read` is the state
        in which the drain last read the end offsets, `before` that in which the topic went.
        A delete that comes back well has destroyed only records that are safe or were
        appended after that read. */
    method DeletePipeline(id: string, fault: Fault, cluster: DrainAndDelete.Cluster)
        returns (response: Response, drained: bool, topicDeleted: bool,
                 ghost read: Delivery.Group, ghost before: Delivery.Group)
      requires cluster.Valid()
      modifies repo, runtime, cluster
      ensures cluster.Valid()
      ensures Now() == HandleDelete(old(Now()), id, fault, drained, topicDeleted).0
      ensures response == HandleDelete(old(Now()), id, fault, drained, topicDeleted).1
      ensures response == Answered("Deleted") ==>
        && id in old(repo.configs)
        && repo.configs == old(repo.configs) - {id} && repo.states == old(repo.states) - {id}
      ensures response != Answered("Deleted") ==> response.Rejected? && repo.configs == old(repo.configs)
      ensures !IsLive(old(Now()), id) && !(id in old(repo.configs) && old(repo.configs)[id].pipelineType == Normal) ==>
        NotFor(old(Now()), Now(), id, response, 500)
      ensures IsLive(old(Now()), id) ==>
        if old(repo.states)[id].desired == WantRunning && fault != NoFault then
          && response == Rejected(502) && FailedNow(old(Now()), Now(), id, WantStopped)
          && cluster.group == old(cluster.group)
        else
          && response == (if !drained then Rejected(409) else if !topicDeleted then Rejected(500)
                          else Answered("Deleted"))
          && (old(repo.states)[id].desired == WantRunning && "producer-" + id in old(runtime.replicas) ==>
                runtime.replicas == old(runtime.replicas)["producer-" + id := 0])
          && (response.Rejected? && old(repo.states)[id].desired == WantRunning ==> StoppedNow(Now(), id))
      ensures id in old(repo.configs) && old(repo.configs)[id].pipelineType == Normal ==>
        && response == Answered("Deleted")
        && runtime.replicas == old(runtime.replicas) && cluster.group == old(cluster.group)
      ensures response.Answered? && IsLive(old(Now()), id) ==>
        var topic := old(repo.configs)[id].topic;
        && DrainAndDelete.Later(old(cluster.group), read) && DrainAndDelete.Later(read, before)
        && cluster.group == Delivery.WithoutTopic(before, topic)
        && DrainAndDelete.OnlySafeGone(read, before, cluster.group, topic, cluster.disciplined)
    {
      drained, topicDeleted, read, before := false, false, cluster.group, cluster.group;
      var config := repo.GetConfig(id);
      if config.None? {
        return Rejected(404), drained, topicDeleted, read, before;
      }
      if config.value.pipelineType == Live {
        var stopped := StopPipeline(id, fault);
        if stopped.Rejected? {
          return stopped, drained, topicDeleted, read, before;
        }
        var ok;
        ok, drained, topicDeleted, read, before := DrainAndDeleteTopic(config.value.topic, cluster);
        if !ok {
          return Rejected(if drained then 500 else 409), drained, topicDeleted, read, before;
        }
      }
      repo.DeletePipeline(id);
      response := Answered("Deleted");
    }

    /** The topic goes only after a drain that came back true. */
    method DrainAndDeleteTopic(topic: string, cluster: DrainAndDelete.Cluster)
        returns (ok: bool, drained: bool, topicDeleted: bool, ghost read: Delivery.Group, ghost before: Delivery.Group)
      requires cluster.Valid()
      modifies cluster
      ensures cluster.Valid() && ok == (drained && topicDeleted)
      ensures !drained ==> cluster.now >= old(cluster.now) + 30.0
      ensures DrainAndDelete.Later(old(cluster.group), read) && DrainAndDelete.Later(read, before)
      ensures cluster.group == before || (drained && cluster.group == Delivery.WithoutTopic(before, topic))
      ensures ok ==> cluster.group == Delivery.WithoutTopic(before, topic)
      ensures drained ==>
        DrainAndDelete.OnlySafeGone(read, before, Delivery.WithoutTopic(before, topic), topic, cluster.disciplined)
    {
      hide DrainAndDelete.Later, DrainAndDelete.Sound;
      topicDeleted := false;
      var polls, ends; ghost var poll;
      drained, polls, ends, poll := DrainAndDelete.WaitForDrain(cluster, topic, DRAIN_TIMEOUT);
      read, before := poll.read, cluster.group;
      DrainAndDelete.LaterIsTransitive(poll.read, poll.seen, cluster.group);
      if drained {
        ghost var g := cluster.group;
        topicDeleted, before := cluster.DeleteTopic(topic);
        DrainAndDelete.LaterIsTransitive(read, g, before);
        DrainAndDelete.DrainedTopicGoes(read, g, before, topic, ends, cluster.disciplined);
      }
      ok := drained && topicDeleted;
    }
  }

  // ---------------------------------------------------------------- whole runs

  function Run(w: World, requests: seq<Request>): World
    decreases |requests|
  {
    if requests == [] then w else Run(Handle(w, requests[0]).0, requests[1..])
  }

  /** No records yet; Deployments may be left over from before. */
  predicate Initial(w: World) {
    w.configs == map[] && w.states == map[]
  }

  /** What a stored state says about its Deployment between requests. */
  predicate Truthful(w: World, id: string)
    requires id in w.states
  {
    var s := w.states[id];
    && s.status in {Created, Running, Stopped, Failed}
    && (s.status == Created ==> s.desired == WantStopped)
    && (s.status == Running ==>
        s.desired == WantRunning && Replicas(w, id) == 1 && s.producer == Some(DeploymentName(id)))
    && (s.status == Stopped ==> s.desired == WantStopped && Replicas(w, id) == 0 && s.producer == None)
  }

  /** Config and state come and go together, and an Airflow pipeline's state never moves. */
  predicate SoundRecord(w: World, id: string) {
    && (id in w.configs <==> id in w.states)
    && (id in w.states ==> Truthful(w, id) && (w.configs[id].pipelineType == Normal ==> w.states[id] == NEW_STATE))
  }

  ghost predicate Consistent(w: World) {
    forall id :: SoundRecord(w, id)
  }

  /** The pipeline a request is about. */
  function Subject(r: Request): string {
    match r
    case Create(config, _) => config.pipelineId
    case _ => r.id
  }

  /** A request changes nothing of other pipelines. */
  lemma OthersKeep(w: World, r: Request, other: string)
    requires other != Subject(r)
    ensures
      var t := Handle(w, r).0;
      && (other in t.configs <==> other in w.configs)
      && (other in w.configs ==> t.configs[other] == w.configs[other])
      && (other in t.states <==> other in w.states)
      && (other in w.states ==> t.states[other] == w.states[other])
      && Replicas(t, other) == Replicas(w, other)
  {
    if DeploymentName(other) == DeploymentName(Subject(r)) {
      DeploymentNameIsInjective(other, Subject(r));
    }
  }

  lemma SubjectSound(w: World, r: Request)
    requires SoundRecord(w, Subject(r))
    ensures SoundRecord(Handle(w, r).0, Subject(r))
  {
  }

  lemma StepConsistent(w: World, r: Request)
    requires Consistent(w)
    ensures Consistent(Handle(w, r).0)
  {
    forall id ensures SoundRecord(Handle(w, r).0, id) {
      assert SoundRecord(w, id);
      if id != Subject(r) {
        OthersKeep(w, r, id);
      } else {
        SubjectSound(w, r);
      }
    }
  }

  /** After every sequence of requests, whatever the runtime did: a pipeline that says
      RUNNING is wanted running and has one replica, and one that says STOPPED is wanted
      stopped and has none. */
  lemma {:induction false} LifecycleInvariant(w: World, requests: seq<Request>)
    requires Initial(w) || Consistent(w)
    ensures Consistent(Run(w, requests))
    decreases |requests|
  {
    if requests != [] {
      StepConsistent(w, requests[0]);
      LifecycleInvariant(Handle(w, requests[0]).0, requests[1..]);
    }
  }

  // ---------------------------------------------------------------- producers nobody stops

  /** A producer runs although no record wants it to. */
  predicate Orphan(w: World, id: string) {
    Replicas(w, id) != 0 && (id in w.states ==> w.states[id].desired == WantStopped)
  }

  /** The requests that leave an orphan where there was none. */
  predicate Orphaning(w: World, r: Request, id: string) {
    && Subject(r) == id && IsLive(w, id)
    && match r
       case Create(_, _) => false
       case Start(_, fault) => w.states[id].desired == WantStopped && fault == Lost
       case Restart(_, apply, rollout) =>
         w.states[id].desired == WantStopped && (apply == Lost || (apply == NoFault && rollout != NoFault))
       case _ => w.states[id].desired == WantRunning && r.fault == Refused && Replicas(w, id) != 0
  }

  /** Orphans appear exactly there: a start or a restart that took effect and still failed,
      or a stop that the cluster refused. */
  lemma OrphansAppearExactly(w: World, r: Request, id: string)
    requires Consistent(w) && !Orphan(w, id)
    ensures Orphan(Handle(w, r).0, id) <==> Orphaning(w, r, id)
  {
    assert SoundRecord(w, id);
    if id != Subject(r) {
      OthersKeep(w, r, id);
    }
  }

  predicate NeverOrphaning(w: World, requests: seq<Request>, id: string)
    decreases |requests|
  {
    requests != [] ==> !Orphaning(w, requests[0], id) && NeverOrphaning(Handle(w, requests[0]).0, requests[1..], id)
  }

  lemma {:induction false} RunWithoutOrphan(w: World, requests: seq<Request>, id: string)
    requires Consistent(w) && !Orphan(w, id) && NeverOrphaning(w, requests, id)
    ensures Consistent(Run(w, requests)) && !Orphan(Run(w, requests), id)
    decreases |requests|
  {
    if requests != [] {
      StepConsistent(w, requests[0]);
      OrphansAppearExactly(w, requests[0], id);
      RunWithoutOrphan(Handle(w, requests[0]).0, requests[1..], id);
    }
  }

  predicate IsStopOrDelete(r: Request) {
    r.Stop? || r.Delete?
  }

  /** A stop or a delete that comes back well has left nothing running exactly if the
      pipeline was no orphan before it: an orphan is answered "Already stopped". */
  lemma StopEndsProducer(w: World, r: Request)
    requires Consistent(w) && IsStopOrDelete(r) && IsLive(w, r.id)
    requires Handle(w, r).1.Answered?
    ensures Replicas(Handle(w, r).0, r.id) == 0 <==> !Orphan(w, r.id)
  {
    assert SoundRecord(w, r.id);
    var (t, stopped) := HandleStop(w, r.id, r.fault);
    assert Replicas(Handle(w, r).0, r.id) == Replicas(t, r.id);
  }

  /** ... so after any run of requests in which no request of a pipeline left an orphan,
      stopping or deleting it ends its producer. */
  lemma RunStopEndsProducer(w: World, requests: seq<Request>, r: Request)
    requires Initial(w) && IsStopOrDelete(r) && Replicas(w, r.id) == 0
    requires NeverOrphaning(w, requests, r.id)
    requires IsLive(Run(w, requests), r.id) && Handle(Run(w, requests), r).1.Answered?
    ensures Replicas(Handle(Run(w, requests), r).0, r.id) == 0
  {
    RunWithoutOrphan(w, requests, r.id);
    StopEndsProducer(Run(w, requests), r);
  }

  /** Stopping does not cure an orphan: whatever stops and deletes follow, its producer
      keeps running, and the delete takes its record away. */
  lemma {:induction false} OrphansSurviveStops(w: World, requests: seq<Request>, id: string)
    requires Consistent(w) && Orphan(w, id)
    requires forall i :: 0 <= i < |requests| ==> IsStopOrDelete(requests[i])
    ensures Orphan(Run(w, requests), id) && Replicas(Run(w, requests), id) == Replicas(w, id)
    decreases |requests|
  {
    if requests != [] {
      var r := requests[0];
      StepConsistent(w, r);
      if Subject(r) != id {
        OthersKeep(w, r, id);
      }
      OrphansSurviveStops(Handle(w, r).0, requests[1..], id);
    }
  }

  lemma RunOne(w: World, r: Request, requests: seq<Request>)
    ensures Run(w, [r] + requests) == Run(Handle(w, r).0, requests)
  {
    assert ([r] + requests)[1..] == requests;
  }

  /** An orphan is within reach of every live pipeline that can be created: a stop that the cluster refuses once
      is "Already stopped" ever after, so the delete that follows succeeds, takes the record
      away and leaves the producer running. */
  lemma RefusedStopThenDelete(w: World, config: PipelineConfig)
    requires Initial(w) && config.pipelineType == Live && HasTable(config)
    ensures
      var id := config.pipelineId;
      var t := Run(w, [Create(config, true)]
                      + ([Start(id, NoFault)] + ([Stop(id, Refused)] + [Delete(id, NoFault, true, true)])));
      id !in t.configs && id !in t.states && Replicas(t, id) == 1
  {
    var id := config.pipelineId;
    var w1 := Handle(w, Create(config, true)).0;
    var w2 := Handle(w1, Start(id, NoFault)).0;
    var end := [Delete(id, NoFault, true, true)];
    RunOne(w2, Stop(id, Refused), end);
    RunOne(w1, Start(id, NoFault), [Stop(id, Refused)] + end);
    RunOne(w, Create(config, true), [Start(id, NoFault)] + ([Stop(id, Refused)] + end));
  }
}

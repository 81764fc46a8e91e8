/** The container lifecycle primitives of `DockerClientInstance`, over an
    abstract engine: a map from container name to status. What the engine
    answers to a mutating command (whether the stop, the removal, the
    creation succeeded) is an input. */
module Lifecycle {
  import opened Wrappers
  import opened JavaStrings
  import opened RunRequest
  import opened CreateCommand

  const CreatedStatus: string := "created"
  const RunningStatus: string := "running"
  const RestartingStatus: string := "restarting"
  const ExitedStatus: string := "exited"

  /** The containers the engine knows, by name, with their status. */
  type Engine = map<string, string>

  /** A command sent to the engine: a stop with its grace period in seconds,
      a removal, the network set-up of `createNetwork`, a container
      creation. */
  datatype EngineCmd =
    | Stop(name: string, timeout: int)
    | Remove(name: string)
    | EnsureNetwork(network: string)
    | Create(command: CreateCmd)

  /** What an operation returns, the engine afterwards, and the commands it
      sent, in order. */
  datatype Outcome<T> = Outcome(value: T, engine: Engine, issued: seq<EngineCmd>)

  /** A container name as the client receives it; null behaves as the empty
      string in every check below. */
  predicate IsBlankName(name: string)
  {
    IsBlank(Some(name))
  }

  /** `isContainerPresent`: the engine lists a container of that name; a
      blank name is never looked up. */
  function IsContainerPresent(e: Engine, name: string): (present: bool)
    ensures IsBlankName(name) ==> !present
    ensures !IsBlankName(name) ==> (present <==> name in e)
  {
    !IsBlankName(name) && name in e
  }

  /** `getContainerStatus`: the engine's status, or "" for a blank name or
      a container the engine cannot inspect. */
  function GetContainerStatus(e: Engine, name: string): (status: string)
    ensures IsContainerPresent(e, name) ==> status == e[name]
    ensures !IsContainerPresent(e, name) ==> status == ""
  {
    if IsBlankName(name) || name !in e then "" else e[name]
  }

  /** `isContainerActive`: running or restarting. */
  function IsContainerActive(e: Engine, name: string): (active: bool)
    ensures active <==> GetContainerStatus(e, name) == RunningStatus || GetContainerStatus(e, name) == RestartingStatus
    ensures active ==> IsContainerPresent(e, name)
  {
    GetContainerStatus(e, name) in [RunningStatus, RestartingStatus]
  }

  /** Only a present container is active, and a present one is active
      exactly when its status is one of the two active ones. */
  lemma ActiveIffPresentWithActiveStatus(e: Engine, name: string)
    ensures IsContainerActive(e, name) <==>
              IsContainerPresent(e, name) && (e[name] == RunningStatus || e[name] == RestartingStatus)
  {
  }

  /** `stopContainer`: false for an empty name or an absent container; true,
      with nothing sent, for a present container that is not active;
      otherwise a stop with no grace period, whose success is
      `stopSucceeds`. A stopped container is exited. */
  function StopContainer(e: Engine, name: string, stopSucceeds: bool): (r: Outcome<bool>)
    ensures r.value <==> IsContainerPresent(e, name) && (!IsContainerActive(e, name) || stopSucceeds)
    ensures r.issued == (if IsContainerActive(e, name) then [Stop(name, 0)] else [])
    ensures r.value ==> !IsContainerActive(r.engine, name)
    ensures !r.value ==> r.engine == e
    ensures r.value && !IsContainerActive(e, name) ==> r.engine == e
    ensures r.engine.Keys == e.Keys
    ensures forall n :: n != name ==> GetContainerStatus(r.engine, n) == GetContainerStatus(e, n)
  {
    if IsEmpty(Some(name)) then Outcome(false, e, [])
    else if !IsContainerPresent(e, name) then Outcome(false, e, [])
    else if !IsContainerActive(e, name) then Outcome(true, e, [])
    else if stopSucceeds then Outcome(true, e[name := ExitedStatus], [Stop(name, 0)])
    else Outcome(false, e, [Stop(name, 0)])
  }

  /** `stopContainer` tests for an empty name but not for a blank one; a
      blank name is still refused, one step later, because no blank name is
      present. */
  lemma BlankNameNotStopped(e: Engine, name: string, stopSucceeds: bool)
    requires IsBlankName(name)
    ensures StopContainer(e, name, stopSucceeds) == Outcome(false, e, [])
  {
  }

  /** `removeContainer`: false for a blank name or an absent container;
      otherwise a removal whose success is `removeSucceeds`. */
  function RemoveContainer(e: Engine, name: string, removeSucceeds: bool): (r: Outcome<bool>)
    ensures r.value <==> IsContainerPresent(e, name) && removeSucceeds
    ensures r.issued == (if IsContainerPresent(e, name) then [Remove(name)] else [])
    ensures r.value ==> !IsContainerPresent(r.engine, name)
    ensures !r.value ==> r.engine == e
    ensures forall n :: n != name ==> GetContainerStatus(r.engine, n) == GetContainerStatus(e, n)
  {
    if IsBlankName(name) then Outcome(false, e, [])
    else if !IsContainerPresent(e, name) then Outcome(false, e, [])
    else if removeSucceeds then Outcome(true, e - {name}, [Remove(name)])
    else Outcome(false, e, [Remove(name)])
  }

  /** `stopAndRemoveContainer`: a stop, then a removal, whatever the stop
      returned; the result is whether the container is still PRESENT
      afterwards, so true reports a failure. */
  function StopAndRemoveContainer(e: Engine, name: string, stopSucceeds: bool, removeSucceeds: bool): (r: Outcome<bool>)
    ensures r.value <==> IsContainerPresent(r.engine, name)
    ensures r.value <==> IsContainerPresent(e, name) && !removeSucceeds
    ensures r.issued == (if IsContainerActive(e, name) then [Stop(name, 0)] else [])
                      + (if IsContainerPresent(e, name) then [Remove(name)] else [])
    ensures forall n :: n != name ==> GetContainerStatus(r.engine, n) == GetContainerStatus(e, n)
  {
    var stopped := StopContainer(e, name, stopSucceeds);
    var removed := RemoveContainer(stopped.engine, name, removeSucceeds);
    Outcome(IsContainerPresent(removed.engine, name), removed.engine, stopped.issued + removed.issued)
  }

  /** The engine's answers to the commands `createContainer` may send: the
      stop and the removal of a duplicate, the network id `createNetwork`
      returns, and the id of the created container (`None` when creation
      throws or yields no id). */
  datatype CreateOutcomes = CreateOutcomes(
    stopSucceeds: bool,
    removeSucceeds: bool,
    networkId: string,
    createdId: Option<string>)

  /** The request `createContainer` accepts: not null, with an image and a
      name that are not blank. */
  predicate IsValidRequest(request: Option<DockerRunRequest>)
  {
    request.Some? && !IsBlank(request.value.imageUri) && !IsBlank(request.value.containerName)
  }

  /** The command `createContainer` sends for a valid request. */
  function CreateCmdFor(q: DockerRunRequest, argsOf: ArgsSplitter): CreateCmd
    requires q.imageUri.Some?
  {
    BuildCreateContainerCmdFromRunRequest(Some(q), Some(NewCreateCmd(q.imageUri.value)), argsOf).value
  }

  /** The network-mode of the request's host config, when not blank. */
  predicate NeedsNetwork(q: DockerRunRequest)
  {
    !IsBlank(q.hostConfig.networkMode)
  }

  /** Whether `createContainer` gets as far as sending the create command:
      the request is valid, any duplicate may be removed, and a needed
      network comes back with an id that is not blank. */
  predicate ReachesCreate(e: Engine, request: Option<DockerRunRequest>, removeDuplicate: bool, networkId: string)
  {
    && IsValidRequest(request)
    && (IsContainerPresent(e, request.value.containerName.value) ==> removeDuplicate)
    && (NeedsNetwork(request.value) ==> !IsBlank(Some(networkId)))
  }

  /** `createContainer(request, removeDuplicate)`. An invalid request gives
      "" with nothing sent. A container already present under the name
      gives "" and is left alone unless `removeDuplicate`, in which case it
      is stopped and removed first. A needed network whose id comes back
      blank gives "". Otherwise the create command is sent, and the id the
      engine returns is the result. */
  function CreateContainer(
    e: Engine, request: Option<DockerRunRequest>, removeDuplicate: bool, o: CreateOutcomes, argsOf: ArgsSplitter): (r: Outcome<string>)
    ensures !IsValidRequest(request) ==> r == Outcome("", e, [])
    ensures (IsValidRequest(request) && IsContainerPresent(e, request.value.containerName.value) && !removeDuplicate)
              ==> r == Outcome("", e, [])
    ensures ReachesCreate(e, request, removeDuplicate, o.networkId) ==>
              && |r.issued| > 0
              && r.issued[|r.issued| - 1] == Create(CreateCmdFor(request.value, argsOf))
              && r.value == o.createdId.GetOr("")
    ensures !ReachesCreate(e, request, removeDuplicate, o.networkId) ==>
              r.value == "" && forall k :: 0 <= k < |r.issued| ==> !r.issued[k].Create?
    ensures r.value != "" ==> ReachesCreate(e, request, removeDuplicate, o.networkId) && o.createdId == Some(r.value)
    ensures r.value != "" ==> IsContainerPresent(r.engine, request.value.containerName.value)
    ensures r.value != "" ==> r.engine[request.value.containerName.value] == CreatedStatus
  {
    if !IsValidRequest(request) then Outcome("", e, [])
    else
      var q := request.value;
      var name := q.containerName.value;
      if IsContainerPresent(e, name) && !removeDuplicate then Outcome("", e, [])
      else
        var cleaned := RemoveDuplicate(e, name, o);
        var network := if NeedsNetwork(q) then [EnsureNetwork(q.hostConfig.networkMode.value)] else [];
        if NeedsNetwork(q) && IsBlank(Some(o.networkId)) then
          Outcome("", cleaned.engine, cleaned.issued + network)
        else
          var issued := cleaned.issued + network + [Create(CreateCmdFor(q, argsOf))];
          match o.createdId
          case None => Outcome("", cleaned.engine, issued)
          case Some(id) => Outcome(id, cleaned.engine[name := CreatedStatus], issued)
  }

  /** The clean-up before creation: a duplicate is stopped and removed, with
      the outcomes given; with no duplicate nothing is sent. */
  function RemoveDuplicate(e: Engine, name: string, o: CreateOutcomes): (r: Outcome<bool>)
    ensures forall k :: 0 <= k < |r.issued| ==> !r.issued[k].Create? && !r.issued[k].EnsureNetwork?
    ensures !IsContainerPresent(e, name) ==> r.engine == e && r.issued == []
    ensures forall n :: n != name ==> GetContainerStatus(r.engine, n) == GetContainerStatus(e, n)
  {
    if IsContainerPresent(e, name) then StopAndRemoveContainer(e, name, o.stopSucceeds, o.removeSucceeds)
    else Outcome(false, e, [])
  }

  /** The commands `createContainer` sends on its way to the create
      command: the clean-up of a duplicate, then the network set-up when
      one is needed. */
  function CommandsBeforeCreate(e: Engine, q: DockerRunRequest, o: CreateOutcomes): seq<EngineCmd>
    requires q.containerName.Some?
  {
    RemoveDuplicate(e, q.containerName.value, o).issued
      + (if NeedsNetwork(q) then [EnsureNetwork(q.hostConfig.networkMode.value)] else [])
  }

  /** Nothing else changes: `createContainer` touches only the container
      of the requested name, sends a stop or a removal only for a
      duplicate, and on its way to creation sends exactly the clean-up, the
      network set-up and the create command, in that order. */
  lemma CreateContainerFrame(
    e: Engine, request: Option<DockerRunRequest>, removeDuplicate: bool, o: CreateOutcomes, argsOf: ArgsSplitter)
    requires IsValidRequest(request)
    ensures var r := CreateContainer(e, request, removeDuplicate, o, argsOf);
      forall n :: n != request.value.containerName.value ==> GetContainerStatus(r.engine, n) == GetContainerStatus(e, n)
    ensures var r := CreateContainer(e, request, removeDuplicate, o, argsOf);
      !IsContainerPresent(e, request.value.containerName.value) ==>
        forall k :: 0 <= k < |r.issued| ==> !r.issued[k].Stop? && !r.issued[k].Remove?
    ensures ReachesCreate(e, request, removeDuplicate, o.networkId) ==>
      CreateContainer(e, request, removeDuplicate, o, argsOf).issued
        == CommandsBeforeCreate(e, request.value, o) + [Create(CreateCmdFor(request.value, argsOf))]
  {
  }

  /** With `removeDuplicate`, a present container is first stopped (when
      active) and removed, exactly as `stopAndRemoveContainer` would. */
  lemma DuplicateRemovedFirst(e: Engine, q: DockerRunRequest, o: CreateOutcomes, argsOf: ArgsSplitter)
    requires IsValidRequest(Some(q)) && IsContainerPresent(e, q.containerName.value)
    ensures var t := StopAndRemoveContainer(e, q.containerName.value, o.stopSucceeds, o.removeSucceeds);
      var r := CreateContainer(e, Some(q), true, o, argsOf);
      && |t.issued| <= |r.issued|
      && r.issued[..|t.issued|] == t.issued
      && Remove(q.containerName.value) in r.issued
  {
    var name := q.containerName.value;
    var t := StopAndRemoveContainer(e, name, o.stopSucceeds, o.removeSucceeds);
    var r := CreateContainer(e, Some(q), true, o, argsOf);
    assert RemoveDuplicate(e, name, o) == t;
    assert t.issued[|t.issued| - 1] == Remove(name);
    var network := if NeedsNetwork(q) then [EnsureNetwork(q.hostConfig.networkMode.value)] else [];
    if NeedsNetwork(q) && IsBlank(Some(o.networkId)) {
      assert r.issued == t.issued + network;
    } else {
      assert r.issued == t.issued + network + [Create(CreateCmdFor(q, argsOf))];
      assert r.issued == t.issued + (network + [Create(CreateCmdFor(q, argsOf))]);
    }
    assert r.issued[|t.issued| - 1] == Remove(name);
  }

  /** Test reference: creating the same request twice. With
      `removeDuplicate` the first container, only created and so not
      active, is removed without a stop and the second id is returned;
      without it the second creation gives "" and leaves the first alone. */
  lemma CreateTwice(e: Engine, q: DockerRunRequest, first: CreateOutcomes, second: CreateOutcomes, argsOf: ArgsSplitter)
    requires IsValidRequest(Some(q)) && !IsContainerPresent(e, q.containerName.value)
    requires NeedsNetwork(q) ==> !IsBlank(Some(first.networkId)) && !IsBlank(Some(second.networkId))
    requires first.createdId.Some? && first.createdId.value != ""
    requires second.removeSucceeds && second.createdId.Some?
    ensures var once := CreateContainer(e, Some(q), true, first, argsOf);
      && CreateContainer(once.engine, Some(q), true, second, argsOf).value == second.createdId.value
      && Remove(q.containerName.value) in CreateContainer(once.engine, Some(q), true, second, argsOf).issued
      && Stop(q.containerName.value, 0) !in CreateContainer(once.engine, Some(q), true, second, argsOf).issued
      && CreateContainer(once.engine, Some(q), false, second, argsOf) == Outcome("", once.engine, [])
  {
    var name := q.containerName.value;
    var once := CreateContainer(e, Some(q), true, first, argsOf);
    FirstCreationInactive(e, q, first, argsOf);
    InactiveDuplicateRemoved(once.engine, q, second, argsOf);
  }

  /** The first creation leaves a created, not active, container. */
  lemma FirstCreationInactive(e: Engine, q: DockerRunRequest, first: CreateOutcomes, argsOf: ArgsSplitter)
    requires IsValidRequest(Some(q)) && !IsContainerPresent(e, q.containerName.value)
    requires NeedsNetwork(q) ==> !IsBlank(Some(first.networkId))
    requires first.createdId.Some? && first.createdId.value != ""
    ensures var once := CreateContainer(e, Some(q), true, first, argsOf);
      && IsContainerPresent(once.engine, q.containerName.value)
      && !IsContainerActive(once.engine, q.containerName.value)
  {
    var once := CreateContainer(e, Some(q), true, first, argsOf);
    assert once.engine[q.containerName.value] == CreatedStatus;
  }

  /** A duplicate that is present but not active is removed without a stop. */
  lemma InactiveDuplicateRemoved(e: Engine, q: DockerRunRequest, o: CreateOutcomes, argsOf: ArgsSplitter)
    requires IsValidRequest(Some(q))
    requires IsContainerPresent(e, q.containerName.value) && !IsContainerActive(e, q.containerName.value)
    requires NeedsNetwork(q) ==> !IsBlank(Some(o.networkId))
    requires o.removeSucceeds && o.createdId.Some?
    ensures var r := CreateContainer(e, Some(q), true, o, argsOf);
      && r.value == o.createdId.value
      && Remove(q.containerName.value) in r.issued
      && Stop(q.containerName.value, 0) !in r.issued
    ensures CreateContainer(e, Some(q), false, o, argsOf) == Outcome("", e, [])
  {
    var name := q.containerName.value;
    var r := CreateContainer(e, Some(q), true, o, argsOf);
    DuplicateRemovedFirst(e, q, o, argsOf);
    var network := if NeedsNetwork(q) then [EnsureNetwork(q.hostConfig.networkMode.value)] else [];
    assert r.issued == [Remove(name)] + network + [Create(CreateCmdFor(q, argsOf))];
  }
}

/** How a run request is turned into docker-java objects:
    `buildCreateContainerCmdFromRunRequest` fills a create-container command
    and the deprecated `buildHostConfigFromRunRequest` fills a host config. */
module CreateCommand {
  import opened Wrappers
  import opened JavaStrings
  import opened RunRequest

  /** The fields of a docker-java `CreateContainerCmd` the client sets; a
      field never set stays null (`None`). */
  datatype CreateCmd = CreateCmd(
    image: string,
    hostConfig: Option<HostConfig>,
    name: Option<string>,
    cmd: Option<seq<string>>,
    entrypoint: Option<seq<string>>,
    env: Option<seq<string>>,
    exposedPorts: Option<seq<int>>,
    workingDir: Option<string>)

  /** `client.createContainerCmd(image)`: only the image is set. */
  function NewCreateCmd(image: string): CreateCmd
  {
    CreateCmd(image, None, None, None, None, None, None, None)
  }

  /** `ArgsUtils.stringArgsToArrayArgs`, which splits a command line into
      arguments, is library code; it is the parameter `argsOf` wherever it
      is applied. */
  type ArgsSplitter = string -> seq<string>

  /** `buildCreateContainerCmdFromRunRequest`: empty when the request or
      the command is null. Otherwise the host config and the name are always
      copied; every other field is written only under its own condition and
      keeps its previous value otherwise. */
  function BuildCreateContainerCmdFromRunRequest(
    request: Option<DockerRunRequest>, command: Option<CreateCmd>, argsOf: ArgsSplitter): (r: Option<CreateCmd>)
    ensures r.Some? <==> request.Some? && command.Some?
    ensures r.Some? ==> (
      var q, c, out := request.value, command.value, r.value;
      && out.image == c.image
      && out.hostConfig == Some(q.hostConfig)
      && out.name == q.containerName
      && out.cmd == (if !IsBlank(q.cmd) then Some(argsOf(q.cmd.value)) else c.cmd)
      && out.entrypoint == (if q.entrypoint.Some? then Some(argsOf(q.entrypoint.value)) else c.entrypoint)
      && out.env == (if q.env.Some? && q.env.value != [] then q.env else c.env)
      && out.exposedPorts == (if q.containerPort > 0 then Some([q.containerPort]) else c.exposedPorts)
      && out.workingDir == (if q.workingDir.Some? then q.workingDir else c.workingDir))
  {
    if request.None? || command.None? then None
    else
      var q := request.value;
      var c := command.value.(hostConfig := Some(q.hostConfig), name := q.containerName);
      var c := if !IsBlank(q.cmd) then c.(cmd := Some(argsOf(q.cmd.value))) else c;
      // an empty entrypoint is still set: it overrides the image's default
      var c := if q.entrypoint.Some? then c.(entrypoint := Some(argsOf(q.entrypoint.value))) else c;
      var c := if q.env.Some? && q.env.value != [] then c.(env := q.env) else c;
      var c := if q.containerPort > 0 then c.(exposedPorts := Some([q.containerPort])) else c;
      var c := if q.workingDir.Some? then c.(workingDir := q.workingDir) else c;
      Some(c)
  }

  /** The fields of a request the create command reads. */
  predicate SameCommandFields(q: DockerRunRequest, q': DockerRunRequest)
  {
    && q.hostConfig == q'.hostConfig
    && q.containerName == q'.containerName
    && q.cmd == q'.cmd
    && q.entrypoint == q'.entrypoint
    && q.env == q'.env
    && q.containerPort == q'.containerPort
    && q.workingDir == q'.workingDir
  }

  /** Nothing else reaches the command: in particular not the deprecated
      `devices`, `binds` and `dockerNetwork`, nor the SGX mode. */
  lemma CommandReadsOnlyCommandFields(q: DockerRunRequest, q': DockerRunRequest, c: CreateCmd, argsOf: ArgsSplitter)
    requires SameCommandFields(q, q')
    ensures BuildCreateContainerCmdFromRunRequest(Some(q), Some(c), argsOf)
         == BuildCreateContainerCmdFromRunRequest(Some(q'), Some(c), argsOf)
  {
  }

  /** On a fresh command, a field is set exactly when its condition holds;
      an empty entrypoint counts as set. */
  lemma FreshCommandFields(q: DockerRunRequest, image: string, argsOf: ArgsSplitter)
    ensures var out := BuildCreateContainerCmdFromRunRequest(Some(q), Some(NewCreateCmd(image)), argsOf).value;
      && (out.cmd.Some? <==> !IsBlank(q.cmd))
      && (out.entrypoint.Some? <==> q.entrypoint.Some?)
      && (out.env.Some? <==> q.env.Some? && q.env.value != [])
      && (out.exposedPorts.Some? <==> q.containerPort > 0)
      && (out.workingDir.Some? <==> q.workingDir.Some?)
      && out.hostConfig == Some(q.hostConfig) && out.name == q.containerName && out.image == image
  {
  }

  /** The SGX devices a builder accumulates never reach the create command:
      whatever calls were made on the builder, the command is the one built
      from the other fields. */
  lemma BuilderDevicesIgnored(b: Builder, calls: seq<BuilderCall>, rest: DockerRunRequest, c: CreateCmd, argsOf: ArgsSplitter)
    ensures BuildCreateContainerCmdFromRunRequest(Some(Build(Apply(b, calls), rest)), Some(c), argsOf)
         == BuildCreateContainerCmdFromRunRequest(Some(rest), Some(c), argsOf)
  {
    CommandReadsOnlyCommandFields(Build(Apply(b, calls), rest), rest, c, argsOf);
  }

  /** The deprecated `buildHostConfigFromRunRequest`: null for a null
      request; otherwise a fresh host config with the deprecated network
      when it is not blank, the deprecated binds when there are any, and the
      deprecated devices always (possibly an empty list). */
  function BuildHostConfigFromRunRequest(request: Option<DockerRunRequest>): (r: Option<HostConfig>)
    ensures r.Some? <==> request.Some?
    ensures r.Some? ==> (
      var q := request.value;
      && (r.value.networkMode.Some? <==> !IsBlank(q.dockerNetwork))
      && (r.value.networkMode.Some? ==> r.value.networkMode == q.dockerNetwork)
      && (r.value.binds.Some? <==> GetBinds(q) != [])
      && (r.value.binds.Some? ==> r.value.binds.value == GetBinds(q))
      && r.value.devices == Some(GetDevices(q)))
  {
    if request.None? then None
    else
      var q := request.value;
      var h := NewHostConfig;
      var h := if !IsBlank(q.dockerNetwork) then h.(networkMode := q.dockerNetwork) else h;
      var binds := GetBinds(q);
      var h := if binds != [] then h.(binds := Some(binds)) else h;
      Some(h.(devices := Some(GetDevices(q))))
  }

  /** This is the only route by which builder devices reach a host config:
      they arrive there in the order the builder accumulated them. */
  lemma HostConfigCarriesBuilderDevices(calls: seq<BuilderCall>, rest: DockerRunRequest)
    ensures BuildHostConfigFromRunRequest(Some(Build(Apply(NewBuilder, calls), rest))).value.devices
         == Some(Contributions(calls))
  {
    BuiltDevices(NewBuilder, calls, rest);
    assert Accumulated(NewBuilder.devices) + Contributions(calls) == Contributions(calls);
  }
}

# iexec-commons-containers in Dafny

A model of the container-running core of iexec-commons-containers, a Java
library that runs iExec task containers through the Docker engine:

- the SGX driver modes and the device paths each one exposes;
- the `DockerRunRequest` record, and its builder, whose `sgxDriverMode` and
  `devices` setters append to one shared device list;
- the `DockerClientInstance` logic that is more than a call into the engine:
  - the image-name sanitizer;
  - the execution-duration computation;
  - the log frame demultiplexer;
  - the create-command and host-config mappings;
  - the container lifecycle primitives (stop, remove, stop-and-remove,
    create with its validation and duplicate policy);
  - the wait-for-exit poll loop;
  - the `run` orchestrator.

The Docker engine is abstract:

- Its state is a map from container name to status.
- Its answer to each mutating command is an input.
- The wait loop reads a finite trace of polls instead of a clock.
- `run` takes the results of the client methods it calls. It returns the
  response together with the list of methods it called, since that list is
  observable behaviour.

Files, one module each:

- `wrappers.dfy`: `Option`.
- `java_strings.dfy`: commons-lang `isEmpty` and `isBlank`.
- `sgx_driver_mode.dfy`, `docker_run_request.dfy`: the two data files.
- `image_name.dfy`: the sanitizer, with the regex search over a pattern of
  literal and wildcard characters.
- `execution_duration.dfy`, `frame_callback.dfy`, `create_command.dfy`,
  `container_lifecycle.dfy`, `container_wait.dfy`, `container_run.dfy`:
  the client logic.

Source paths below are relative to the repository root. The two main files
are `src/main/java/com/iexec/commons/containers/` (SgxDriverMode.java,
DockerRunRequest.java) and `src/main/java/com/iexec/commons/containers/client/DockerClientInstance.java`.

## Model

| member | source | states |
|---|---|---|
| SgxDriver.Devices | src/main/java/com/iexec/commons/containers/SgxDriverMode.java:21-34 | NONE has no device; LEGACY has exactly `/dev/isgx`; NATIVE has exactly `/dev/sgx/enclave` then `/dev/sgx/provision` |
| SgxDriver.IsDriverModeNotNone | src/main/java/com/iexec/commons/containers/SgxDriverMode.java:44-46 | true exactly for a mode that is not NONE, and true for null, unlike its documentation says |
| SgxDriver.NotNoneIffHasDevices | src/main/java/com/iexec/commons/containers/SgxDriverMode.java:22-46 | for every mode, "not NONE" holds iff the mode differs from NONE iff the mode has at least one device |
| RunRequest.GetBinds | src/main/java/com/iexec/commons/containers/DockerRunRequest.java:69-71 | an empty list when the field is null, else a list equal to the field |
| RunRequest.GetDevices | src/main/java/com/iexec/commons/containers/DockerRunRequest.java:77-79 | an empty list when the field is null, else a list equal to the field |
| RunRequest.GetSgxDriverMode | src/main/java/com/iexec/commons/containers/DockerRunRequest.java:81-83 | NONE when the stored mode is null, else the stored mode |
| RunRequest.ModeDevices | src/main/java/com/iexec/commons/containers/DockerRunRequest.java:111-113 | one parsed device per path of the mode, in the mode's order |
| RunRequest.WithSgxDriverMode | src/main/java/com/iexec/commons/containers/DockerRunRequest.java:102-115 | the mode is stored; NONE leaves the device list untouched (possibly null); any other mode keeps the accumulated devices as a prefix and appends its own devices after them, in order |
| RunRequest.WithDevices | src/main/java/com/iexec/commons/containers/DockerRunRequest.java:124-130 | the mode is untouched; the accumulated devices stay as a prefix, and the suffix is exactly the given list |
| RunRequest.Build | src/main/java/com/iexec/commons/containers/DockerRunRequest.java:32-55 | the built request reads back the builder's mode (NONE when none was set) and the devices it accumulated; every other field is the one set through its generated setter |
| RunRequest.ApplyAppends | src/main/java/com/iexec/commons/containers/DockerRunRequest.java:102-130 | any sequence of setter calls leaves the initial devices followed by each call's contribution, in call order |
| RunRequest.FinalDeviceCount | src/main/java/com/iexec/commons/containers/DockerRunRequest.java:102-130 | no deduplication: the final count is the initial count plus every `devices` list length plus the device count of every mode set |
| RunRequest.CallOrderIrrelevant | src/main/java/com/iexec/commons/containers/DockerRunRequest.java:102-130 | two call sequences that are permutations of each other accumulate the same multiset of devices |
| RunRequest.NativePlusOneDevice | src/main/java/com/iexec/commons/containers/DockerRunRequest.java:102-130 | NATIVE plus one manual device gives 3 devices, in either call order |
| RunRequest.BuiltModeIsLastSet | src/main/java/com/iexec/commons/containers/DockerRunRequest.java:81-106 | the built request holds the mode last given to the builder, and reads as NONE when none was given |
| RunRequest.BuiltDevices | src/main/java/com/iexec/commons/containers/DockerRunRequest.java:77-130 | the built request's `getDevices` is exactly what the builder accumulated |
| RunRequest.SgxDriverModeAsWritten | src/main/java/com/iexec/commons/containers/DockerRunRequest.java:102-114 | a non-null mode behaves as WithSgxDriverMode; a null mode throws a NullPointerException after storing NONE and creating the device list |
| RunRequest.SgxDriverModeIntended | src/main/java/com/iexec/commons/containers/DockerRunRequest.java:90-97 | as documented: null is stored as NONE and adds no device; it agrees with the written setter on every non-null mode |
| RunRequest.NullModeThrows | src/main/java/com/iexec/commons/containers/DockerRunRequest.java:102-114 | with a null mode the written setter throws, while the documented one returns the builder with NONE and its devices untouched |
| ImageName.FindFrom | src/main/java/com/iexec/commons/containers/client/DockerClientInstance.java:347-348 | `Matcher.find`: the leftmost position at or after the start where the pattern matches, or none when it matches nowhere |
| ImageName.Capture | src/main/java/com/iexec/commons/containers/client/DockerClientInstance.java:347-349 | the group is absent exactly when the pattern matches at no position |
| ImageName.CaptureIsRest | src/main/java/com/iexec/commons/containers/client/DockerClientInstance.java:342-349 | on text without line terminators, the group is everything after the leftmost match |
| ImageName.Sanitize | src/main/java/com/iexec/commons/containers/client/DockerClientInstance.java:340-353 | the image is returned unchanged iff none of the three patterns occurs; the result is never longer; a changed result holds no line terminator |
| ImageName.SanitizeIsSuffix | src/main/java/com/iexec/commons/containers/client/DockerClientInstance.java:340-353 | on text without line terminators the result is a suffix of the image |
| ImageName.DockerIoLibraryRule | src/main/java/com/iexec/commons/containers/client/DockerClientInstance.java:342 | `docker.io/library/` followed by a rest without line terminators gives the rest |
| ImageName.LibraryRule | src/main/java/com/iexec/commons/containers/client/DockerClientInstance.java:343 | `library/` plus a rest gives the rest, when the first pattern occurs nowhere |
| ImageName.DockerIoRule | src/main/java/com/iexec/commons/containers/client/DockerClientInstance.java:344 | `docker.io/` plus a rest gives the rest, when neither earlier pattern occurs |
| ImageName.DockerIoLibraryExample | src/test/java/com/iexec/commons/containers/client/DockerClientInstanceTests.java:338-342 | `docker.io/library/alpine:latest` becomes `alpine:latest` |
| ImageName.LibraryExample | src/test/java/com/iexec/commons/containers/client/DockerClientInstanceTests.java:344-348 | `library/alpine:latest` becomes `alpine:latest` |
| ImageName.DockerIoExample | src/test/java/com/iexec/commons/containers/client/DockerClientInstanceTests.java:332-336 | `docker.io/alpine/socat:latest` becomes `alpine/socat:latest` |
| ImageName.ShortNameUnchanged | src/test/java/com/iexec/commons/containers/client/DockerClientInstanceTests.java:350-354 | `alpine:latest` is unchanged |
| ImageName.OtherRegistryUnchanged | src/test/java/com/iexec/commons/containers/client/DockerClientInstanceTests.java:356-360 | `registry.hub.docker.com/alpine/socat:latest` is unchanged |
| ImageName.PrivateRegistryUnchanged | src/test/java/com/iexec/commons/containers/client/DockerClientInstanceTests.java:362-367 | `nexus.iex.ec/some-app:latest` is unchanged |
| ImageName.NotIdempotent | src/main/java/com/iexec/commons/containers/client/DockerClientInstance.java:340-353 | `docker.io/docker.io/x` becomes `docker.io/x`, which becomes `x`: sanitizing twice differs from sanitizing once |
| ImageName.Unanchored | src/main/java/com/iexec/commons/containers/client/DockerClientInstance.java:343-348 | a pattern may match in the middle: `nexus.iex.ec/library/app:latest` becomes `app:latest` |
| ImageName.DotIsWildcard | src/main/java/com/iexec/commons/containers/client/DockerClientInstance.java:344-348 | the dot of `docker.io` matches any character: `dockerXio/app` becomes `app` |
| ImageName.FirstPatternWins | src/main/java/com/iexec/commons/containers/client/DockerClientInstance.java:341-352 | the pattern order decides, not the position: `library/docker.io/library/x` becomes `x` |
| ImageName.StopsAtLineTerminator | src/main/java/com/iexec/commons/containers/client/DockerClientInstance.java:342-349 | the greedy group stops at a line terminator: `docker.io/a` newline `b` becomes `a` |
| ExecutionDuration.Duration | src/main/java/com/iexec/commons/containers/client/DockerClientInstance.java:829-852 | absent iff either raw timestamp is exactly `0001-01-01T00:00:00Z`; a present duration is non-negative, not below finish minus start, and either that difference or zero |
| ExecutionDuration.DurationIsClampedDifference | src/main/java/com/iexec/commons/containers/client/DockerClientInstance.java:842-851 | finish minus start when it is non-negative, zero when it is negative |
| ExecutionDuration.SentinelIsTextual | src/main/java/com/iexec/commons/containers/client/DockerClientInstance.java:832-840 | only the exact sentinel text counts as unset; another spelling of the same instant gives a duration |
| ExecutionDuration.FinishBeforeStartIsZero | src/test/java/com/iexec/commons/containers/client/DockerClientInstanceTests.java:1251-1263 | the test's finish, 0.2 ms before its start, gives a zero duration |
| FrameCallback.OnNext | src/main/java/com/iexec/commons/containers/client/DockerClientInstance.java:972-979 | a STDOUT payload is appended to stdout only; a STDERR payload to stderr only; any other frame changes nothing |
| FrameCallback.OnFramesDemultiplexes | src/main/java/com/iexec/commons/containers/client/DockerClientInstance.java:960-980 | a frame sequence appends exactly the concatenated STDOUT payloads to stdout and the STDERR payloads to stderr, in arrival order |
| FrameCallback.OtherStreamTypesIgnored | src/main/java/com/iexec/commons/containers/client/DockerClientInstance.java:974-978 | frames that are neither STDOUT nor STDERR leave the callback unchanged |
| FrameCallback.SingleStreamLogs | src/test/java/com/iexec/commons/containers/client/DockerClientInstanceTests.java:999-1037 | output written only to one stream leaves the other collected text empty |
| FrameCallback.Collect | src/main/java/com/iexec/commons/containers/client/DockerClientInstance.java:960-970 | a fresh callback fed a frame sequence holds the two demultiplexed streams |
| CreateCommand.BuildCreateContainerCmdFromRunRequest | src/main/java/com/iexec/commons/containers/client/DockerClientInstance.java:527-558 | empty iff the request or the command is null; the image is kept and the host config and name are always copied; cmd is set only from a non-blank cmd, entrypoint from any non-null one, env from a non-empty one, the exposed port from a positive one, working dir from a non-null one; every other field keeps its previous value |
| CreateCommand.CommandReadsOnlyCommandFields | src/main/java/com/iexec/commons/containers/client/DockerClientInstance.java:527-558 | two requests that agree on host config, name, cmd, entrypoint, env, port and working dir give the same command |
| CreateCommand.FreshCommandFields | src/main/java/com/iexec/commons/containers/client/DockerClientInstance.java:535-556 | on a fresh command each optional field is set iff its condition holds, including an empty entrypoint |
| CreateCommand.BuilderDevicesIgnored | src/main/java/com/iexec/commons/containers/client/DockerClientInstance.java:494-535 | the devices and mode a builder accumulates never change the create command |
| CreateCommand.BuildHostConfigFromRunRequest | src/main/java/com/iexec/commons/containers/client/DockerClientInstance.java:564-580 | null iff the request is null; the network is set iff the deprecated network is not blank, binds iff there are deprecated binds, and the devices always, as `getDevices` returns them |
| CreateCommand.HostConfigCarriesBuilderDevices | src/main/java/com/iexec/commons/containers/client/DockerClientInstance.java:577-578 | the devices a builder accumulated reach this host config in accumulation order |
| Lifecycle.IsContainerPresent | src/main/java/com/iexec/commons/containers/client/DockerClientInstance.java:582-584 | a blank name is never present; any other name is present iff the engine lists it |
| Lifecycle.IsContainerActive | src/main/java/com/iexec/commons/containers/client/DockerClientInstance.java:594-598 | active iff the status read is `running` or `restarting`; an active container is present |
| Lifecycle.GetContainerStatus | src/main/java/com/iexec/commons/containers/client/DockerClientInstance.java:636-649 | the engine's status for a present container, "" for a blank or absent one |
| Lifecycle.ActiveIffPresentWithActiveStatus | src/main/java/com/iexec/commons/containers/client/DockerClientInstance.java:594-598 | active iff present with status `running` or `restarting` |
| Lifecycle.StopContainer | src/main/java/com/iexec/commons/containers/client/DockerClientInstance.java:761-784 | true iff the container is present and either inactive or its stop succeeded; a stop with grace period 0 is sent iff it is active; on true it is no longer active; on false, and when it was not active, the engine is unchanged; no other container changes |
| Lifecycle.BlankNameNotStopped | src/main/java/com/iexec/commons/containers/client/DockerClientInstance.java:761-768 | a blank name, though only emptiness is tested, is refused with nothing sent |
| Lifecycle.RemoveContainer | src/main/java/com/iexec/commons/containers/client/DockerClientInstance.java:786-804 | true iff the container is present and its removal succeeded; a removal is sent iff it is present; on true it is gone; on false the engine is unchanged; no other container changes |
| Lifecycle.StopAndRemoveContainer | src/main/java/com/iexec/commons/containers/client/DockerClientInstance.java:450-454 | the result is presence after both attempts, true iff the container was present and its removal failed; the stop (when active) precedes the removal (when present) |
| Lifecycle.CreateContainer | src/main/java/com/iexec/commons/containers/client/DockerClientInstance.java:475-518 | an invalid request gives "" with nothing sent; a kept duplicate gives "" with nothing sent; the create command is the last command iff the request is valid, a duplicate may be removed and a needed network got an id; a non-empty result is the engine's id, and the container is then present with status `created` |
| Lifecycle.CreateContainerFrame | src/main/java/com/iexec/commons/containers/client/DockerClientInstance.java:475-518 | every other container keeps its status; without a duplicate no stop or removal is sent; on the way to creation exactly the duplicate's clean-up, then the network set-up when needed, then the create command are sent |
| Lifecycle.DuplicateRemovedFirst | src/main/java/com/iexec/commons/containers/client/DockerClientInstance.java:484-491 | with `removeDuplicate`, a present container is stopped and removed, as `stopAndRemoveContainer` would do, before anything else is sent |
| Lifecycle.InactiveDuplicateRemoved | src/main/java/com/iexec/commons/containers/client/DockerClientInstance.java:484-491 | a duplicate that is present but not active is removed without a stop and the new id is returned; with duplicates kept the call gives "" and changes nothing |
| Lifecycle.CreateTwice | src/test/java/com/iexec/commons/containers/client/DockerClientInstanceTests.java:656-680 | a second creation under the same name removes the first container, without stopping it, and returns the new id; with duplicates kept it gives "" and changes nothing |
| Wait.ToInt32 | src/main/java/com/iexec/commons/containers/client/DockerClientInstance.java:717 | `Long.intValue`: a signed 32-bit value congruent to the input modulo 2^32 |
| Wait.InspectedExitCode | src/main/java/com/iexec/commons/containers/client/DockerClientInstance.java:713-721 | the engine's exit code narrowed to a signed 32-bit value congruent to it modulo 2^32, or -1 when inspection fails |
| Wait.GetContainerExitCode | src/main/java/com/iexec/commons/containers/client/DockerClientInstance.java:709-722 | an `IllegalArgumentException` with its message iff the name is blank; otherwise a 32-bit exit code, -1 when it cannot be read |
| Wait.BlankNameExitCodeRefused | src/test/java/com/iexec/commons/containers/client/DockerClientInstanceTests.java:988-995 | an empty or null name is refused with "Container name cannot be blank" |
| Wait.UnreadableExitCodeIsMinusOne | src/main/java/com/iexec/commons/containers/client/DockerClientInstance.java:714-721 | for a name that is not blank, an unreadable exit code, a real -1 and 2^32 - 1 all read as -1 |
| Wait.FirstTerminating | src/main/java/com/iexec/commons/containers/client/DockerClientInstance.java:684-698 | the index of the first poll showing `exited` or an instant after the deadline; no earlier poll does |
| Wait.WaitContainerUntilExitOrTimeout | src/main/java/com/iexec/commons/containers/client/DockerClientInstance.java:673-707 | a blank name is refused, then a null deadline, both with their messages and before any poll; otherwise it polls at least once, stops at the first terminating poll, returns the exit code when that poll shows `exited` and times out otherwise |
| Wait.BlankNameBeforeNullDeadline | src/test/java/com/iexec/commons/containers/client/DockerClientInstanceTests.java:913-920 | a blank name with a null deadline is refused for the name |
| Run.Run | src/main/java/com/iexec/commons/containers/client/DockerClientInstance.java:391-448 | SUCCESS iff created, started and either detached or exited with 0; TIMEOUT iff supervised and timed out; the exit code is the waited one only after an exit, else -1; which calls are made (start, wait, stop, logs, duration, remove) in terms of the outcomes; logs and duration are stored only when collected |
| Run.CallOrder | src/main/java/com/iexec/commons/containers/client/DockerClientInstance.java:405-446 | the exact call order: after a failed start only the removal; a supervised run starts, waits, stops on a timeout, then gets the logs, then the duration, and removes last; after a failed stop the logs come last |
| Run.CallsAreDistinct | src/main/java/com/iexec/commons/containers/client/DockerClientInstance.java:391-448 | `run`'s body calls each client method at most once (calls nested inside those methods are not counted) |
| Run.RemovalOutcomeInvisible | src/main/java/com/iexec/commons/containers/client/DockerClientInstance.java:443-446 | the final removal's outcome changes neither the response nor the calls |
| Run.EarlyExits | src/main/java/com/iexec/commons/containers/client/DockerClientInstance.java:395-415 | the exact responses and call lists of a failed creation, a failed start and a detached run |
| Run.FailedStopSkipsTeardown | src/main/java/com/iexec/commons/containers/client/DockerClientInstance.java:430-437 | a timeout whose stop fails returns TIMEOUT and -1 right after the logs, with no duration and no removal |
| Run.BadArgLooksLikeExitMinusOne | src/main/java/com/iexec/commons/containers/client/DockerClientInstance.java:438-440 | a wait refused for its arguments leads to the same response and calls as an exit with code -1 |
| Run.MinusOneIsAmbiguous | src/main/java/com/iexec/commons/containers/client/DockerClientInstance.java:395-440 | the response's exit code is -1 iff the run was not supervised, did not end in an exit, or exited with -1 |

## Left out

- Client construction, registry authentication and the client factory: network I/O and process-wide caching.
- Image pulling and `parseRegistryAddress`: they rely on docker-java's image-name parser and an asynchronous pull. Volume, network and image CRUD are left out too, as are `getContainerId`, `getContainerName`, `getContainerLogs` and `exec`, which only pass calls through to the engine. Their results appear only as inputs: the map of containers, the id `createNetwork` returns, and the logs and duration `run` collects.
- Lifecycle.IsContainerPresent: the engine's name filter also matches names that merely contain the given name; the model looks the name up exactly.
- Lifecycle.CreateContainer: the create command, the stop and removal of a duplicate, and network creation are each summarised by the outcome the engine returns. An exception thrown while building the command is folded into the "no id" outcome.
- Run.Run: the call list holds only the client methods called directly from `run`'s body. The calls those methods make in turn are not listed: the stop and removal `createContainer` sends for a duplicate, the status polls of the wait, and the presence and status checks inside the stop, removal and log getter.
- Run.Run: the request is never null. `run(null)` throws a NullPointerException when it first reads the request, and that path is not modelled.
- Run.Run: the result of each client call is an input and is not tied to the lifecycle model, so, for instance, nothing forces a name accepted by `createContainer` to be accepted by the wait.
- The wait's clock, its one-second sleep, interrupt handling and the log line every sixty polls: the loop reads a finite poll trace instead and requires that some poll ends it.
- `synchronized` on the mutating methods: the model is single-threaded.
- ISO-8601 parsing of timestamps: each timestamp carries its parsed instant in nanoseconds. A null or malformed timestamp, which makes parsing throw, is not modelled.
- `ArgsUtils.stringArgsToArrayArgs`: it is not part of this model, and the command splitter is a function parameter.
- `Device.parse` and the internals of `HostConfig`, `Binds` and `ExposedPort`: a device is known only by its path, and binds and ports by their primitive values.
- `DockerRunResponse` and `DockerLogs` are not part of this model beyond the fields `run` sets.
- RunRequest.Build: the generated `build()` hands the builder's own device list to the request without copying it, so devices added to the builder after `build()` also show in the request; the model copies the list by value.
- The builder's `devices(null)`, which throws a NullPointerException, and a request whose host config is set to null: neither is modelled.
- Decoding of frame payloads with the platform charset: payloads are given as text.
- Logging throughout.

## Findings

| source | as written | input that shows it | evidently intended | confidence | as-written member | corrected member |
|---|---|---|---|---|---|---|
| src/main/java/com/iexec/commons/containers/DockerRunRequest.java:102-114 | the NONE test and the device loop use the raw argument; `isDriverModeNotNone(null)` is true, so the loop dereferences null | `builder().sgxDriverMode(null)` | null is stored as NONE and adds no device, as the setter's documentation says | high, not executed | RunRequest.SgxDriverModeAsWritten | RunRequest.SgxDriverModeIntended |

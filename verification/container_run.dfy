/** `DockerClientInstance.run`: create, start, supervise and tear down one
    container. Every engine call it makes is replaced by its result, given
    in advance; the run returns the response and the calls it made, in
    order. */
module Run {
  import opened Wrappers
  import opened RunRequest
  import FrameCallback

  datatype FinalStatus = SUCCESS | FAILED | TIMEOUT

  /** `DockerLogs`: the two streams the log callback collected. */
  type DockerLogs = FrameCallback.Collected

  /** The response: status, exit code, and the logs and execution duration
      (in nanoseconds) when they were collected. */
  datatype DockerRunResponse = DockerRunResponse(
    finalStatus: FinalStatus,
    containerExitCode: int,
    dockerLogs: Option<DockerLogs>,
    executionDuration: Option<int>)

  /** What `waitContainerUntilExitOrTimeout` did: returned an exit code,
      threw `TimeoutException`, or threw `IllegalArgumentException`. */
  datatype WaitResult = Exit(code: int) | Timeout | BadArg

  /** The results of the client methods `run` calls. */
  datatype RunOutcomes = RunOutcomes(
    createdId: string,
    startSucceeds: bool,
    wait: WaitResult,
    stopSucceeds: bool,
    logs: Option<DockerLogs>,
    duration: Option<int>,
    removeSucceeds: bool)

  /** The client methods called directly from `run`'s body; calls those
      methods make in turn are not listed. */
  datatype Call =
    | CreateContainer | StartContainer | WaitContainer | StopContainer
    | GetContainerLogs | GetExecutionDuration | RemoveContainer

  datatype RunResult = RunResult(response: DockerRunResponse, calls: seq<Call>)

  /** The response before anything has happened: failed, exit code -1. */
  const Initial: DockerRunResponse := DockerRunResponse(FAILED, -1, None, None)

  /** The creation succeeded: `run` tests only for the empty id. */
  predicate Created(o: RunOutcomes)
  {
    o.createdId != ""
  }

  /** The run is supervised: created, started, and given a positive
      maximum execution time. */
  predicate Supervised(q: DockerRunRequest, o: RunOutcomes)
  {
    Created(o) && o.startSucceeds && q.maxExecutionTime > 0
  }

  /** Whether the final collection (logs, duration, removal) is reached:
      every supervised run except a timeout whose stop failed. */
  predicate Collects(q: DockerRunRequest, o: RunOutcomes)
  {
    Supervised(q, o) && !(o.wait.Timeout? && !o.stopSucceeds)
  }

  /** `Optional.ifPresent(setter)`. */
  function IfPresent<T>(found: Option<T>, current: Option<T>): Option<T>
  {
    if found.Some? then found else current
  }

  /** The last lines of `run`: logs and duration are stored when available,
      and a removal is attempted whose outcome is only logged. */
  function CollectAndRemove(response: DockerRunResponse, calls: seq<Call>, o: RunOutcomes): RunResult
  {
    RunResult(
      response.(dockerLogs := IfPresent(o.logs, response.dockerLogs),
                executionDuration := IfPresent(o.duration, response.executionDuration)),
      calls + [GetContainerLogs, GetExecutionDuration, RemoveContainer])
  }

  /** `run(request)`. */
  function Run(q: DockerRunRequest, o: RunOutcomes): (r: RunResult)
    ensures r.response.finalStatus == SUCCESS <==>
              Created(o) && o.startSucceeds && (q.maxExecutionTime <= 0 || o.wait == Exit(0))
    ensures r.response.finalStatus == TIMEOUT <==> Supervised(q, o) && o.wait.Timeout?
    ensures r.response.containerExitCode == (if Supervised(q, o) && o.wait.Exit? then o.wait.code else -1)
    ensures |r.calls| > 0 && r.calls[0] == CreateContainer
    ensures (StartContainer in r.calls) <==> Created(o)
    ensures (WaitContainer in r.calls) <==> Supervised(q, o)
    ensures (StopContainer in r.calls) <==> Supervised(q, o) && o.wait.Timeout?
    ensures (GetContainerLogs in r.calls) <==> Supervised(q, o)
    ensures (GetExecutionDuration in r.calls) <==> Collects(q, o)
    ensures (RemoveContainer in r.calls) <==> (Created(o) && !o.startSucceeds) || Collects(q, o)
    ensures r.response.dockerLogs == (if Supervised(q, o) then o.logs else None)
    ensures r.response.executionDuration == (if Collects(q, o) then o.duration else None)
  {
    if o.createdId == "" then RunResult(Initial, [CreateContainer])
    else if !o.startSucceeds then RunResult(Initial, [CreateContainer, StartContainer, RemoveContainer])
    else if q.maxExecutionTime <= 0 then
      // detached: the container runs on; nothing is collected or removed
      RunResult(Initial.(finalStatus := SUCCESS), [CreateContainer, StartContainer])
    else
      var waited := [CreateContainer, StartContainer, WaitContainer];
      match o.wait
      case Exit(code) =>
        CollectAndRemove(Initial.(containerExitCode := code, finalStatus := if code == 0 then SUCCESS else FAILED), waited, o)
      case Timeout =>
        var timedOut := Initial.(finalStatus := TIMEOUT);
        if !o.stopSucceeds then
          RunResult(timedOut.(dockerLogs := IfPresent(o.logs, timedOut.dockerLogs)), waited + [StopContainer, GetContainerLogs])
        else CollectAndRemove(timedOut, waited + [StopContainer], o)
      case BadArg =>
        // the exception is only logged: FAILED and -1 are kept and the run
        // goes on to the collection
        CollectAndRemove(Initial, waited, o)
  }

  /** The order of the calls on every path: a failed start is followed by
      the removal alone; a supervised run starts, waits, stops on a timeout,
      then collects the logs, then the duration, and removes last, unless
      the stop failed, in which case the logs come last. */
  lemma CallOrder(q: DockerRunRequest, o: RunOutcomes)
    ensures Created(o) && !o.startSucceeds ==>
              Run(q, o).calls == [CreateContainer, StartContainer, RemoveContainer]
    ensures Collects(q, o) ==>
              Run(q, o).calls == [CreateContainer, StartContainer, WaitContainer]
                                 + (if o.wait.Timeout? then [StopContainer] else [])
                                 + [GetContainerLogs, GetExecutionDuration, RemoveContainer]
    ensures Supervised(q, o) && !Collects(q, o) ==>
              Run(q, o).calls == [CreateContainer, StartContainer, WaitContainer, StopContainer, GetContainerLogs]
  {
  }

  /** `run`'s body calls each client method at most once. */
  lemma CallsAreDistinct(q: DockerRunRequest, o: RunOutcomes)
    ensures var calls := Run(q, o).calls;
      forall i, j :: 0 <= i < j < |calls| ==> calls[i] != calls[j]
  {
  }

  /** Whether the final removal succeeds never shows in the response or in
      the calls made. */
  lemma RemovalOutcomeInvisible(q: DockerRunRequest, o: RunOutcomes, removeSucceeds: bool)
    ensures Run(q, o.(removeSucceeds := removeSucceeds)) == Run(q, o)
  {
  }

  /** The exact traces of the early exits. */
  lemma EarlyExits(q: DockerRunRequest, o: RunOutcomes)
    ensures !Created(o) ==> Run(q, o) == RunResult(Initial, [CreateContainer])
    ensures Created(o) && !o.startSucceeds ==>
              Run(q, o) == RunResult(Initial, [CreateContainer, StartContainer, RemoveContainer])
    ensures Created(o) && o.startSucceeds && q.maxExecutionTime <= 0 ==>
              Run(q, o) == RunResult(DockerRunResponse(SUCCESS, -1, None, None), [CreateContainer, StartContainer])
  {
  }

  /** A timeout whose forced stop fails stops right after the logs: no
      duration, no removal. */
  lemma FailedStopSkipsTeardown(q: DockerRunRequest, o: RunOutcomes)
    requires Supervised(q, o) && o.wait == Timeout && !o.stopSucceeds
    ensures Run(q, o).calls == [CreateContainer, StartContainer, WaitContainer, StopContainer, GetContainerLogs]
    ensures Run(q, o).response == DockerRunResponse(TIMEOUT, -1, o.logs, None)
  {
  }

  /** An `IllegalArgumentException` from the wait is indistinguishable in
      the response from an exit with code -1. */
  lemma BadArgLooksLikeExitMinusOne(q: DockerRunRequest, o: RunOutcomes)
    requires Supervised(q, o)
    ensures Run(q, o.(wait := BadArg)) == Run(q, o.(wait := Exit(-1)))
  {
  }

  /** An exit code of -1 in a response reports a detached run, a timeout,
      a failed creation or start, a wait refused for its arguments, or a
      container whose exit code was -1 or could not be read: the code alone
      does not tell them apart. */
  lemma MinusOneIsAmbiguous(q: DockerRunRequest, o: RunOutcomes)
    ensures Run(q, o).response.containerExitCode == -1 <==>
              !Supervised(q, o) || !o.wait.Exit? || o.wait.code == -1
  {
  }
}

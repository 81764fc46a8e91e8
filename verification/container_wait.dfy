/** `waitContainerUntilExitOrTimeout` and `getContainerExitCode`. Time is
    not read from a clock: the loop consumes a finite trace of polls, each
    holding the status the engine reported and the instant it was read. */
module Wait {
  import opened Wrappers
  import opened Lifecycle

  /** One iteration's observations: the container status, and the instant
      compared with the deadline. */
  datatype Poll = Poll(status: string, now: int)

  /** What the wait yields: the exit code, a `TimeoutException`, or an
      `IllegalArgumentException` with its message. */
  datatype WaitOutcome = Exited(code: int) | TimedOut | IllegalArgument(message: string)

  const BlankNameMessage: string := "Container name cannot be blank"
  const NullDeadlineMessage: string := "Timeout date cannot be null"

  const TwoTo31: int := 0x8000_0000
  const TwoTo32: int := 0x1_0000_0000

  /** `Long.intValue`: the low 32 bits, read as a signed integer. */
  function ToInt32(x: int): (r: int)
    ensures -TwoTo31 <= r < TwoTo31
    ensures (x - r) % TwoTo32 == 0
  {
    (x + TwoTo31) % TwoTo32 - TwoTo31
  }

  /** A value already in the signed 32-bit range is kept as it is. */
  lemma ToInt32KeepsInts(x: int)
    requires -TwoTo31 <= x < TwoTo31
    ensures ToInt32(x) == x
  {
  }

  /** The inspection inside `getContainerExitCode`: the engine's exit code
      narrowed to an `int`, or -1 when inspection fails (`None`). */
  function InspectedExitCode(exitCodeLong: Option<int>): (code: int)
    ensures exitCodeLong.None? ==> code == -1
    ensures exitCodeLong.Some? ==> code == ToInt32(exitCodeLong.value)
  {
    match exitCodeLong
    case None => -1
    case Some(v) => ToInt32(v)
  }

  /** `getContainerExitCode(name)`: a blank name throws
      `IllegalArgumentException` before the engine is asked; otherwise the
      inspected exit code. */
  function GetContainerExitCode(name: string, exitCodeLong: Option<int>): (r: WaitOutcome)
    ensures r.IllegalArgument? <==> IsBlankName(name)
    ensures r.IllegalArgument? ==> r.message == BlankNameMessage
    ensures !r.IllegalArgument? ==> r.Exited? && -TwoTo31 <= r.code < TwoTo31
    ensures !IsBlankName(name) && exitCodeLong.None? ==> r == Exited(-1)
    ensures !IsBlankName(name) && exitCodeLong.Some? ==> r.Exited? && (exitCodeLong.value - r.code) % TwoTo32 == 0
  {
    if IsBlankName(name) then IllegalArgument(BlankNameMessage)
    else Exited(InspectedExitCode(exitCodeLong))
  }

  /** Test reference: an empty (or null) name is refused with its message,
      whatever the engine would have answered. */
  lemma BlankNameExitCodeRefused(exitCodeLong: Option<int>)
    ensures GetContainerExitCode("", exitCodeLong) == IllegalArgument(BlankNameMessage)
  {
  }

  /** -1 is both a real exit code and the "unreadable" answer; so is every
      code that narrows to -1. */
  lemma UnreadableExitCodeIsMinusOne(name: string)
    requires !IsBlankName(name)
    ensures GetContainerExitCode(name, None) == GetContainerExitCode(name, Some(-1)) == Exited(-1)
    ensures GetContainerExitCode(name, Some(TwoTo32 - 1)) == Exited(-1)
  {
  }

  /** A poll ends the loop when the container has exited or the instant is
      strictly after the deadline. */
  predicate Terminates(p: Poll, deadline: int)
  {
    p.status == ExitedStatus || p.now > deadline
  }

  /** Reference definition: the index of the first terminating poll, or
      the length of the trace when there is none. */
  function FirstTerminating(polls: seq<Poll>, deadline: int): (i: nat)
    ensures i <= |polls|
    ensures i < |polls| ==> Terminates(polls[i], deadline)
    ensures forall k :: 0 <= k < i ==> !Terminates(polls[k], deadline)
    decreases |polls|
  {
    if polls == [] then 0
    else if Terminates(polls[0], deadline) then 0
    else 1 + FirstTerminating(polls[1..], deadline)
  }

  /** The traces along which the loop ends. */
  predicate SomePollTerminates(polls: seq<Poll>, deadline: int)
  {
    exists k :: 0 <= k < |polls| && Terminates(polls[k], deadline)
  }

  /** `waitContainerUntilExitOrTimeout`. A blank name is refused first,
      then a null deadline, both before any poll. Otherwise it polls at
      least once and stops at the first poll that terminates; `consumed` is
      the number of polls made. Exited on that poll wins over the deadline
      and yields the exit code; otherwise the wait times out. */
  method WaitContainerUntilExitOrTimeout(
    name: string, deadline: Option<int>, polls: seq<Poll>, exitCodeLong: Option<int>)
    returns (r: WaitOutcome, consumed: nat)
    requires !IsBlankName(name) && deadline.Some? ==> SomePollTerminates(polls, deadline.value)
    ensures IsBlankName(name) ==> r == IllegalArgument(BlankNameMessage) && consumed == 0
    ensures !IsBlankName(name) && deadline.None? ==> r == IllegalArgument(NullDeadlineMessage) && consumed == 0
    ensures !IsBlankName(name) && deadline.Some? ==>
              && 1 <= consumed <= |polls|
              && consumed == FirstTerminating(polls, deadline.value) + 1
              && (polls[consumed - 1].status == ExitedStatus ==> r == Exited(InspectedExitCode(exitCodeLong)))
              && (polls[consumed - 1].status != ExitedStatus ==> r == TimedOut && polls[consumed - 1].now > deadline.value)
  {
    if IsBlankName(name) {
      return IllegalArgument(BlankNameMessage), 0;
    }
    if deadline.None? {
      return IllegalArgument(NullDeadlineMessage), 0;
    }
    var d := deadline.value;
    ghost var first := FirstTerminating(polls, d);
    var isExited := false;
    var isTimeout := false;
    var seconds := 0;
    while !isExited && !isTimeout
      invariant 0 <= seconds <= first + 1
      invariant seconds == 0 ==> !isExited && !isTimeout
      invariant seconds > 0 ==> isExited == (polls[seconds - 1].status == ExitedStatus)
      invariant seconds > 0 ==> isTimeout == (polls[seconds - 1].now > d)
      invariant !isExited && !isTimeout ==> seconds <= first
      decreases first + 1 - seconds
    {
      isExited := polls[seconds].status == ExitedStatus;
      isTimeout := polls[seconds].now > d;
      seconds := seconds + 1;
    }
    consumed := seconds;
    if !isExited {
      return TimedOut, consumed;
    }
    r := GetContainerExitCode(name, exitCodeLong);
  }

  /** Test reference: a blank name is refused even when no deadline is
      given. */
  method BlankNameBeforeNullDeadline(polls: seq<Poll>) returns (r: WaitOutcome)
    ensures r == IllegalArgument(BlankNameMessage)
  {
    var consumed;
    r, consumed := WaitContainerUntilExitOrTimeout("", None, polls, None);
  }
}

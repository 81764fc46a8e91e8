/** `FrameResultCallback`: collects the frames of a log or exec stream into
    a standard output and a standard error text. */
module FrameCallback {

  /** docker-java's `StreamType`. */
  datatype StreamType = STDIN | STDOUT | STDERR | RAW

  /** A frame; its payload is given already decoded to text, one frame at a
      time, as `new String(payload)` does. */
  datatype Frame = Frame(streamType: StreamType, payload: string)

  datatype Collected = Collected(stdout: string, stderr: string)

  const Empty: Collected := Collected("", "")

  /** `onNext`: a STDOUT payload is appended to the standard output, a
      STDERR payload to the standard error; any other frame is dropped. */
  function OnNext(c: Collected, f: Frame): (r: Collected)
    ensures f.streamType == STDOUT ==> r == Collected(c.stdout + f.payload, c.stderr)
    ensures f.streamType == STDERR ==> r == Collected(c.stdout, c.stderr + f.payload)
    ensures f.streamType !in {STDOUT, STDERR} ==> r == c
  {
    if f.streamType == STDOUT then c.(stdout := c.stdout + f.payload)
    else if f.streamType == STDERR then c.(stderr := c.stderr + f.payload)
    else c
  }

  /** The callback after receiving `frames` in arrival order. */
  function OnFrames(c: Collected, frames: seq<Frame>): Collected
    decreases |frames|
  {
    if frames == [] then c else OnFrames(OnNext(c, frames[0]), frames[1..])
  }

  /** Reference definition: the payloads of the frames of one stream type,
      concatenated in order. */
  function Stream(frames: seq<Frame>, t: StreamType): string
    decreases |frames|
  {
    if frames == [] then ""
    else (if frames[0].streamType == t then frames[0].payload else "") + Stream(frames[1..], t)
  }

  /** Receiving frames appends exactly the STDOUT payloads, in order, to the
      standard output and the STDERR payloads to the standard error. */
  lemma {:induction false} OnFramesDemultiplexes(c: Collected, frames: seq<Frame>)
    ensures OnFrames(c, frames) == Collected(c.stdout + Stream(frames, STDOUT), c.stderr + Stream(frames, STDERR))
    decreases |frames|
  {
    if frames == [] {
      assert c.stdout + "" == c.stdout && c.stderr + "" == c.stderr;
    } else {
      var f := frames[0];
      var c' := OnNext(c, f);
      OnFramesDemultiplexes(c', frames[1..]);
      var out := if f.streamType == STDOUT then f.payload else "";
      var err := if f.streamType == STDERR then f.payload else "";
      assert c' == Collected(c.stdout + out, c.stderr + err);
      assert c.stdout + out + Stream(frames[1..], STDOUT) == c.stdout + (out + Stream(frames[1..], STDOUT));
      assert c.stderr + err + Stream(frames[1..], STDERR) == c.stderr + (err + Stream(frames[1..], STDERR));
    }
  }

  /** A stream type that no frame carries contributes nothing. */
  lemma {:induction false} StreamOfAbsentType(frames: seq<Frame>, t: StreamType)
    requires forall k :: 0 <= k < |frames| ==> frames[k].streamType != t
    ensures Stream(frames, t) == ""
    decreases |frames|
  {
    if frames != [] {
      StreamOfAbsentType(frames[1..], t);
    }
  }

  /** Frames of the other stream types leave the callback as it was. */
  lemma OtherStreamTypesIgnored(c: Collected, frames: seq<Frame>)
    requires forall k :: 0 <= k < |frames| ==> frames[k].streamType !in {STDOUT, STDERR}
    ensures OnFrames(c, frames) == c
  {
    OnFramesDemultiplexes(c, frames);
    StreamOfAbsentType(frames, STDOUT);
    StreamOfAbsentType(frames, STDERR);
    assert c.stdout + "" == c.stdout && c.stderr + "" == c.stderr;
  }

  /** A container that writes only to its standard output leaves the
      collected standard error empty, and conversely. */
  lemma SingleStreamLogs(frames: seq<Frame>)
    ensures (forall k :: 0 <= k < |frames| ==> frames[k].streamType == STDOUT) ==> OnFrames(Empty, frames).stderr == ""
    ensures (forall k :: 0 <= k < |frames| ==> frames[k].streamType == STDERR) ==> OnFrames(Empty, frames).stdout == ""
  {
    Collect(frames);
    if forall k :: 0 <= k < |frames| ==> frames[k].streamType == STDOUT {
      StreamOfAbsentType(frames, STDERR);
    }
    if forall k :: 0 <= k < |frames| ==> frames[k].streamType == STDERR {
      StreamOfAbsentType(frames, STDOUT);
    }
  }

  /** A new callback fed `frames` holds the two demultiplexed streams. */
  lemma Collect(frames: seq<Frame>)
    ensures OnFrames(Empty, frames) == Collected(Stream(frames, STDOUT), Stream(frames, STDERR))
  {
    OnFramesDemultiplexes(Empty, frames);
  }
}

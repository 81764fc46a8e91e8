/** `DockerRunRequest`: the description of one container run, and the
    customised builder through which SGX devices are accumulated. */
module RunRequest {
  import opened Wrappers
  import opened SgxDriver

  /** A docker-java `Device`. `Device.parse` is library code; a parsed device
      is known here only by the path it was parsed from. */
  datatype Device = Device(spec: string)

  function ParseDevice(path: string): Device
  {
    Device(path)
  }

  /** The parts of a docker-java `HostConfig` the client reads or writes;
      every field is null (`None`) in a fresh `HostConfig.newHostConfig()`. */
  datatype HostConfig = HostConfig(
    networkMode: Option<string>,
    binds: Option<seq<string>>,
    devices: Option<seq<Device>>)

  const NewHostConfig: HostConfig := HostConfig(None, None, None)

  /** The request record. Reference fields that may be null are options;
      `devices`, `binds` and `dockerNetwork` are the deprecated fields. */
  datatype DockerRunRequest = DockerRunRequest(
    hostConfig: HostConfig,
    chainTaskId: Option<string>,
    containerName: Option<string>,
    containerPort: int,
    imageUri: Option<string>,
    entrypoint: Option<string>,
    cmd: Option<string>,
    env: Option<seq<string>>,
    binds: Option<seq<string>>,
    maxExecutionTime: int,
    sgxDriverMode: Option<SgxDriverMode>,
    dockerNetwork: Option<string>,
    workingDir: Option<string>,
    shouldDisplayLogs: bool,
    devices: Option<seq<Device>>)

  /** `getBinds`: an empty list when the field is null, else a copy. */
  function GetBinds(r: DockerRunRequest): (binds: seq<string>)
    ensures r.binds.None? ==> binds == []
    ensures r.binds.Some? ==> binds == r.binds.value
  {
    r.binds.GetOr([])
  }

  /** `getDevices`: an empty list when the field is null, else a copy. */
  function GetDevices(r: DockerRunRequest): (devices: seq<Device>)
    ensures r.devices.None? ==> devices == []
    ensures r.devices.Some? ==> devices == r.devices.value
  {
    r.devices.GetOr([])
  }

  /** `getSgxDriverMode`: an unset mode reads as NONE. */
  function GetSgxDriverMode(r: DockerRunRequest): (m: SgxDriverMode)
    ensures r.sgxDriverMode.None? ==> m == NONE
    ensures r.sgxDriverMode.Some? ==> m == r.sgxDriverMode.value
  {
    r.sgxDriverMode.GetOr(NONE)
  }

  // ---------------------------------------------------------------------
  // The builder. Lombok generates a plain setter per field; the two setters
  // below are overridden and share one device list.

  /** The builder state the overridden setters act on: the stored mode and
      the accumulated device list, both null until first set. */
  datatype Builder = Builder(mode: Option<SgxDriverMode>, devices: Option<seq<Device>>)

  const NewBuilder: Builder := Builder(None, None)

  /** The accumulated list, reading null as empty (the setters create the
      list on first use). */
  function Accumulated(ds: Option<seq<Device>>): seq<Device>
  {
    ds.GetOr([])
  }

  /** The parsed devices of a mode, in the mode's order. */
  function ModeDevices(m: SgxDriverMode): (ds: seq<Device>)
    ensures |ds| == |Devices(m)|
    ensures forall k :: 0 <= k < |ds| ==> ds[k] == ParseDevice(Devices(m)[k])
  {
    seq(|Devices(m)|, k requires 0 <= k < |Devices(m)| => ParseDevice(Devices(m)[k]))
  }

  /** `sgxDriverMode(m)` for a non-null `m`: store the mode; when it is not
      NONE, append its devices after those already accumulated. */
  function WithSgxDriverMode(b: Builder, m: SgxDriverMode): (r: Builder)
    ensures r.mode == Some(m)
    ensures m == NONE ==> r.devices == b.devices
    ensures m != NONE ==> (
      && r.devices.Some?
      && |r.devices.value| == |Accumulated(b.devices)| + |Devices(m)|
      && r.devices.value[..|Accumulated(b.devices)|] == Accumulated(b.devices)
      && forall k :: 0 <= k < |Devices(m)| ==>
           r.devices.value[|Accumulated(b.devices)| + k] == ParseDevice(Devices(m)[k]))
  {
    if !IsDriverModeNotNone(Some(m)) then Builder(Some(m), b.devices)
    else Builder(Some(m), Some(Accumulated(b.devices) + ModeDevices(m)))
  }

  /** `devices(list)`: append `list` after the accumulated devices, never
      replacing them; the stored mode is untouched. */
  function WithDevices(b: Builder, list: seq<Device>): (r: Builder)
    ensures r.mode == b.mode
    ensures r.devices.Some?
    ensures |r.devices.value| == |Accumulated(b.devices)| + |list|
    ensures r.devices.value[..|Accumulated(b.devices)|] == Accumulated(b.devices)
    ensures r.devices.value[|Accumulated(b.devices)|..] == list
  {
    Builder(b.mode, Some(Accumulated(b.devices) + list))
  }

  /** `build()`: the two overridden fields come from the builder; every
      other field is whatever its generated setter stored, given as `rest`. */
  function Build(b: Builder, rest: DockerRunRequest): (r: DockerRunRequest)
    ensures GetSgxDriverMode(r) == b.mode.GetOr(NONE)
    ensures GetDevices(r) == Accumulated(b.devices)
    ensures r.(sgxDriverMode := rest.sgxDriverMode, devices := rest.devices) == rest
  {
    rest.(sgxDriverMode := b.mode, devices := b.devices)
  }

  // ---------------------------------------------------------------------
  // Sequences of builder calls.

  datatype BuilderCall = SetSgxDriverMode(mode: SgxDriverMode) | AddDevices(list: seq<Device>)

  function Step(b: Builder, c: BuilderCall): Builder
  {
    match c
    case SetSgxDriverMode(m) => WithSgxDriverMode(b, m)
    case AddDevices(list) => WithDevices(b, list)
  }

  /** The builder after the calls, in order. */
  function Apply(b: Builder, calls: seq<BuilderCall>): Builder
    decreases |calls|
  {
    if calls == [] then b else Apply(Step(b, calls[0]), calls[1..])
  }

  /** What one call contributes to the device list, independently of the
      builder it acts on. */
  function Contribution(c: BuilderCall): seq<Device>
  {
    match c
    case SetSgxDriverMode(m) => if m == NONE then [] else ModeDevices(m)
    case AddDevices(list) => list
  }

  /** Reference definition: the contributions of the calls, concatenated. */
  function Contributions(calls: seq<BuilderCall>): seq<Device>
    decreases |calls|
  {
    if calls == [] then [] else Contribution(calls[0]) + Contributions(calls[1..])
  }

  /** How many devices the calls add: every list length plus the device
      count of every mode set. */
  function DeviceCount(calls: seq<BuilderCall>): nat
    decreases |calls|
  {
    if calls == [] then 0
    else
      (match calls[0]
       case SetSgxDriverMode(m) => |Devices(m)|
       case AddDevices(list) => |list|)
      + DeviceCount(calls[1..])
  }

  /** The last mode the calls set, if any. */
  function LastMode(calls: seq<BuilderCall>, current: Option<SgxDriverMode>): Option<SgxDriverMode>
    decreases |calls|
  {
    if calls == [] then current
    else LastMode(calls[1..], if calls[0].SetSgxDriverMode? then Some(calls[0].mode) else current)
  }

  lemma StepAppendsContribution(b: Builder, c: BuilderCall)
    ensures Accumulated(Step(b, c).devices) == Accumulated(b.devices) + Contribution(c)
  {
  }

  /** Both setters only ever append: after any calls, the device list is
      the devices held before, followed by each call's contribution in call
      order, with nothing dropped, replaced or deduplicated. */
  lemma {:induction false} ApplyAppends(b: Builder, calls: seq<BuilderCall>)
    ensures Accumulated(Apply(b, calls).devices) == Accumulated(b.devices) + Contributions(calls)
    decreases |calls|
  {
    if calls != [] {
      var c := calls[0];
      var b' := Step(b, c);
      StepAppendsContribution(b, c);
      ApplyAppends(b', calls[1..]);
      assert Apply(b, calls) == Apply(b', calls[1..]);
      assert Contributions(calls) == Contribution(c) + Contributions(calls[1..]);
      var x, y, z := Accumulated(b.devices), Contribution(c), Contributions(calls[1..]);
      assert x + y + z == x + (y + z);
    }
  }

  lemma {:induction false} ContributionsLength(calls: seq<BuilderCall>)
    ensures |Contributions(calls)| == DeviceCount(calls)
    decreases |calls|
  {
    if calls != [] {
      ContributionsLength(calls[1..]);
    }
  }

  /** No deduplication: the final device count is the initial count plus
      the sum of all list lengths and of the device counts of all modes set. */
  lemma FinalDeviceCount(b: Builder, calls: seq<BuilderCall>)
    ensures |Accumulated(Apply(b, calls).devices)| == |Accumulated(b.devices)| + DeviceCount(calls)
  {
    ApplyAppends(b, calls);
    ContributionsLength(calls);
  }

  lemma {:induction false} ContributionsConcat(xs: seq<BuilderCall>, ys: seq<BuilderCall>)
    ensures Contributions(xs + ys) == Contributions(xs) + Contributions(ys)
    decreases |xs|
  {
    if xs == [] {
      assert xs + ys == ys;
    } else {
      assert (xs + ys)[0] == xs[0];
      assert (xs + ys)[1..] == xs[1..] + ys;
      ContributionsConcat(xs[1..], ys);
    }
  }

  lemma SplitAround<T>(s: seq<T>, i: nat)
    requires i < |s|
    ensures s == s[..i] + ([s[i]] + s[i + 1..])
  {
    assert s[i..] == [s[i]] + s[i + 1..];
    assert s == s[..i] + s[i..];
  }

  /** Taking the call at `i` out of a sequence. */
  function Without(calls: seq<BuilderCall>, i: nat): (rest: seq<BuilderCall>)
    requires i < |calls|
    ensures multiset(calls) == multiset(rest) + multiset{calls[i]}
  {
    SplitAround(calls, i);
    calls[..i] + calls[i + 1..]
  }

  lemma ContributionsCons(c: BuilderCall, post: seq<BuilderCall>)
    ensures Contributions([c] + post) == Contribution(c) + Contributions(post)
  {
    var s := [c] + post;
    assert s[0] == c && s[1..] == post;
  }

  /** The contributions of the calls before, at and after `i`. */
  lemma ContributionsAt(calls: seq<BuilderCall>, i: nat)
    requires i < |calls|
    ensures Contributions(calls)
         == Contributions(calls[..i]) + (Contribution(calls[i]) + Contributions(calls[i + 1..]))
  {
    var c, pre, post := calls[i], calls[..i], calls[i + 1..];
    var tail := [c] + post;
    SplitAround(calls, i);
    ContributionsConcat(pre, tail);
    ContributionsCons(c, post);
  }

  lemma MultisetOfThree<T>(a: seq<T>, m: seq<T>, z: seq<T>)
    ensures multiset(a + (m + z)) == multiset(m) + multiset(a + z)
  {
  }

  /** The call at `i` contributes its devices wherever it stands. */
  lemma ContributionsWithout(calls: seq<BuilderCall>, i: nat)
    requires i < |calls|
    ensures multiset(Contributions(calls))
         == multiset(Contribution(calls[i])) + multiset(Contributions(Without(calls, i)))
  {
    ContributionsAt(calls, i);
    ContributionsConcat(calls[..i], calls[i + 1..]);
    MultisetOfThree(Contributions(calls[..i]), Contribution(calls[i]), Contributions(calls[i + 1..]));
  }

  /** The contributions, as a multiset, depend only on which calls were
      made and not on their order. */
  lemma {:induction false} ContributionsPermutation(calls: seq<BuilderCall>, calls': seq<BuilderCall>)
    requires multiset(calls) == multiset(calls')
    ensures multiset(Contributions(calls)) == multiset(Contributions(calls'))
    decreases |calls|
  {
    if calls == [] {
      assert |calls'| == |multiset(calls')| == 0;
    } else {
      var c := calls[0];
      assert calls == [c] + calls[1..];
      assert multiset(calls) == multiset{c} + multiset(calls[1..]);
      assert c in multiset(calls');
      var i :| 0 <= i < |calls'| && calls'[i] == c;
      var rest' := Without(calls', i);
      calc {
        multiset(calls[1..]);
        multiset(calls) - multiset{c};
        multiset(calls') - multiset{c};
        multiset(rest');
      }
      ContributionsPermutation(calls[1..], rest');
      ContributionsWithout(calls', i);
    }
  }

  /** Order independence: the same builder calls made in any order yield the
      same devices, counted with multiplicity. */
  lemma CallOrderIrrelevant(b: Builder, calls: seq<BuilderCall>, calls': seq<BuilderCall>)
    requires multiset(calls) == multiset(calls')
    ensures multiset(Accumulated(Apply(b, calls).devices)) == multiset(Accumulated(Apply(b, calls').devices))
  {
    ApplyAppends(b, calls);
    ApplyAppends(b, calls');
    ContributionsPermutation(calls, calls');
  }

  /** A NATIVE mode plus one manually added device gives three devices,
      whichever call comes first. */
  lemma NativePlusOneDevice(manual: Device)
    ensures |GetDevices(Build(Apply(NewBuilder, [SetSgxDriverMode(NATIVE), AddDevices([manual])]), NewRequest))| == 3
    ensures |GetDevices(Build(Apply(NewBuilder, [AddDevices([manual]), SetSgxDriverMode(NATIVE)]), NewRequest))| == 3
  {
    var first := [SetSgxDriverMode(NATIVE), AddDevices([manual])];
    var second := [AddDevices([manual]), SetSgxDriverMode(NATIVE)];
    assert first[1..] == [AddDevices([manual])] && second[1..] == [SetSgxDriverMode(NATIVE)];
    assert DeviceCount([AddDevices([manual])]) == 1 && DeviceCount([SetSgxDriverMode(NATIVE)]) == 2;
    assert DeviceCount(first) == 3 && DeviceCount(second) == 3;
    FinalDeviceCount(NewBuilder, first);
    FinalDeviceCount(NewBuilder, second);
  }

  /** Every field unset: what `DockerRunRequest.builder().build()` yields. */
  const NewRequest: DockerRunRequest := DockerRunRequest(
    NewHostConfig, None, None, 0, None, None, None, None, None, 0, None, None, None, false, None)

  /** The built request reads back the mode last given to the builder, and
      NONE when no mode was given. */
  lemma {:induction false} BuiltModeIsLastSet(b: Builder, calls: seq<BuilderCall>, rest: DockerRunRequest)
    ensures Build(Apply(b, calls), rest).sgxDriverMode == LastMode(calls, b.mode)
    ensures GetSgxDriverMode(Build(Apply(b, calls), rest)) == LastMode(calls, b.mode).GetOr(NONE)
    decreases |calls|
  {
    if calls != [] {
      BuiltModeIsLastSet(Step(b, calls[0]), calls[1..], rest);
    }
  }

  /** The built request's `getDevices` returns exactly what the builder
      accumulated. */
  lemma BuiltDevices(b: Builder, calls: seq<BuilderCall>, rest: DockerRunRequest)
    ensures GetDevices(Build(Apply(b, calls), rest)) == Accumulated(b.devices) + Contributions(calls)
  {
    ApplyAppends(b, calls);
  }

  // ---------------------------------------------------------------------
  // The null argument of `sgxDriverMode(...)`.

  /** What a call of the builder's `sgxDriverMode` setter does: it returns
      the builder, or throws a `NullPointerException` after partly updating
      it. */
  datatype ModeCallOutcome = Returned(builder: Builder) | NullPointerThrown(partial: Builder)

  /** `sgxDriverMode(m)` as written, `m` possibly null. The stored mode is
      normalised, but the NONE test and the device loop use the raw argument:
      null passes the test (null is not NONE), the list is created, and the
      loop dereferences null. */
  function SgxDriverModeAsWritten(b: Builder, m: Option<SgxDriverMode>): (r: ModeCallOutcome)
    ensures m.Some? ==> r == Returned(WithSgxDriverMode(b, m.value))
    ensures m.None? ==> r.NullPointerThrown?
    ensures m.None? ==> r.partial == Builder(Some(NONE), Some(Accumulated(b.devices)))
  {
    var stored := m.GetOr(NONE);
    if !IsDriverModeNotNone(m) then Returned(Builder(Some(stored), b.devices))
    else
      var list := Accumulated(b.devices);
      match m
      case None => NullPointerThrown(Builder(Some(stored), Some(list)))
      case Some(mode) => Returned(Builder(Some(stored), Some(list + ModeDevices(mode))))
  }

  /** The setter as its documentation describes it: null is stored as NONE
      and, like NONE, adds no device. */
  function SgxDriverModeIntended(b: Builder, m: Option<SgxDriverMode>): (r: Builder)
    ensures m.None? ==> r.mode == Some(NONE) && r.devices == b.devices
    ensures GetSgxDriverMode(Build(r, NewRequest)) == m.GetOr(NONE)
    ensures m.Some? ==> SgxDriverModeAsWritten(b, m) == Returned(r)
  {
    WithSgxDriverMode(b, m.GetOr(NONE))
  }

  /** The discrepancy: with a null mode, the documented setter returns, the
      written one throws. */
  lemma NullModeThrows(b: Builder)
    ensures SgxDriverModeAsWritten(b, None).NullPointerThrown?
    ensures SgxDriverModeIntended(b, None) == Builder(Some(NONE), b.devices)
  {
  }
}

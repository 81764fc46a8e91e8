/** The SGX driver modes and the host devices each one needs
    (`SgxDriverMode` enum). */
module SgxDriver {
  import opened Wrappers

  datatype SgxDriverMode = NONE | LEGACY | NATIVE

  /** `getDevices`: the fixed, ordered device paths of a mode. The legacy
      out-of-tree driver exposes one device, the in-kernel driver two. */
  function Devices(m: SgxDriverMode): (paths: seq<string>)
    ensures m == NONE ==> paths == []
    ensures m == LEGACY ==> paths == ["/dev/isgx"]
    ensures m == NATIVE ==> paths == ["/dev/sgx/enclave", "/dev/sgx/provision"]
  {
    match m
    case NONE => []
    case LEGACY => ["/dev/isgx"]
    case NATIVE => ["/dev/sgx/enclave", "/dev/sgx/provision"]
  }

  /** `isDriverModeNotNone`, which Java may call with null (`None`). The
      body is `driverMode != NONE`, so null yields true, although the
      method's own documentation promises false for null. */
  function IsDriverModeNotNone(m: Option<SgxDriverMode>): (notNone: bool)
    ensures notNone <==> m != Some(NONE)
    ensures m.None? ==> notNone
  {
    m != Some(NONE)
  }

  /** For a non-null mode, "not NONE" holds exactly when the mode needs at
      least one device. */
  lemma NotNoneIffHasDevices(m: SgxDriverMode)
    ensures IsDriverModeNotNone(Some(m)) <==> m != NONE
    ensures IsDriverModeNotNone(Some(m)) <==> |Devices(m)| > 0
  {
  }
}

/** The camera-control and video-processing setters (`setFocus` through
    `setGain`): each picks the Auto or Manual flag from its `aut` argument and
    forwards one property, the value and the flag to the device. */
module CameraControls {

  /** The device interface a setter forwards to. */
  datatype ControlInterface = CameraControl | VideoProcAmp

  /** The sixteen setters of the session. */
  datatype Setter =
    | SetFocus | SetExposure | SetZoom | SetIris | SetPan | SetTilt | SetRoll
    | SetBrightness | SetContrast | SetHue | SetSaturation | SetSharpness
    | SetGamma | SetWhiteBalance | SetBacklitComp | SetGain

  /** The `Set(property, value, flag)` call a setter makes. */
  datatype ControlRequest = ControlRequest(iface: ControlInterface, property: int, value: int, flag: int)

  /** CameraControl_Flags_Auto and VideoProcAmp_Flags_Auto are both 1, the
      two Manual flags both 2. */
  const FlagsAuto: int := 1
  const FlagsManual: int := 2

  /** `aut ? ..._Flags_Auto : ..._Flags_Manual`. */
  function FlagFor(aut: bool): (flag: int)
    ensures flag == FlagsAuto <==> aut
    ensures flag == FlagsManual <==> !aut
  {
    if aut then FlagsAuto else FlagsManual
  }

  /** The interface and property number (the CameraControlProperty or
      VideoProcAmpProperty enumerator) each setter targets. */
  function Target(s: Setter): (ControlInterface, int)
  {
    match s
    case SetPan => (CameraControl, 0)
    case SetTilt => (CameraControl, 1)
    case SetRoll => (CameraControl, 2)
    case SetZoom => (CameraControl, 3)
    case SetExposure => (CameraControl, 4)
    case SetIris => (CameraControl, 5)
    case SetFocus => (CameraControl, 6)
    case SetBrightness => (VideoProcAmp, 0)
    case SetContrast => (VideoProcAmp, 1)
    case SetHue => (VideoProcAmp, 2)
    case SetSaturation => (VideoProcAmp, 3)
    case SetSharpness => (VideoProcAmp, 4)
    case SetGamma => (VideoProcAmp, 5)
    case SetWhiteBalance => (VideoProcAmp, 7)
    case SetBacklitComp => (VideoProcAmp, 8)
    case SetGain => (VideoProcAmp, 9)
  }

  /** The request a setter forwards: the value unchanged, the flag chosen by
      `aut`, camera-control setters on IAMCameraControl and the rest on
      IAMVideoProcAmp. */
  function RequestFor(s: Setter, value: int, aut: bool): (r: ControlRequest)
    ensures r.value == value && r.flag == FlagFor(aut)
    ensures r.iface == CameraControl <==> s in {SetFocus, SetExposure, SetZoom, SetIris, SetPan, SetTilt, SetRoll}
    ensures (r.iface, r.property) == Target(s)
  {
    var (iface, property) := Target(s);
    ControlRequest(iface, property, value, FlagFor(aut))
  }

  /** No two setters write the same property of the same interface. */
  lemma TargetsDistinct(s1: Setter, s2: Setter)
    requires s1 != s2
    ensures Target(s1) != Target(s2)
  {
  }
}

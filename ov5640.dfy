/**
 * The OV5640 driver state and its operations: the control handlers, which
 * read a register, change some of its bits and write it back, the control
 * dispatch, loading a register array, and selecting a format.
 */
module Ov5640 {
  import opened Base
  import opened Ov5640Regs
  import opened Cci
  import opened Ov5640Modes

  /** `ov5640_set_hflip`. */
  function Hflip(b: Bus, value: int): (r: (Bus, Status))
    ensures Failed(r.1) <==> Failed(ReadStatus(b, TimingTcReg21)) || Failed(WriteStatus(b, TimingTcReg21))
    ensures !Failed(r.1) ==>
      && Forced(Value(r.0, TimingTcReg21), SensorMirror, value != 0)
      && SameOutside(Value(r.0, TimingTcReg21), Value(b, TimingTcReg21), SensorMirror)
    ensures forall reg :: reg != TimingTcReg21 ==> Value(r.0, reg) == Value(b, reg)
  {
    ReadModifyWrite(b, TimingTcReg21, MirrorBits(Value(b, TimingTcReg21), value))
  }

  /** `ov5640_set_vflip`: zero sets both flip bits, a nonzero value clears them. */
  function Vflip(b: Bus, value: int): (r: (Bus, Status))
    ensures Failed(r.1) <==> Failed(ReadStatus(b, TimingTcReg20)) || Failed(WriteStatus(b, TimingTcReg20))
    ensures !Failed(r.1) ==>
      && Forced(Value(r.0, TimingTcReg20), VflipBits, value == 0)
      && SameOutside(Value(r.0, TimingTcReg20), Value(b, TimingTcReg20), VflipBits)
    ensures forall reg :: reg != TimingTcReg20 ==> Value(r.0, reg) == Value(b, reg)
  {
    ReadModifyWrite(b, TimingTcReg20, FlipBits(Value(b, TimingTcReg20), value))
  }

  /** `ov5640_set_aec_mode`. */
  function AecMode(b: Bus, mode: int): (r: (Bus, Status))
    ensures Failed(r.1) <==> Failed(ReadStatus(b, AecPkManual)) || Failed(WriteStatus(b, AecPkManual))
    ensures !Failed(r.1) ==>
      && Forced(Value(r.0, AecPkManual), AecManualEnable, mode != ExposureAuto)
      && SameOutside(Value(r.0, AecPkManual), Value(b, AecPkManual), AecManualEnable)
    ensures forall reg :: reg != AecPkManual ==> Value(r.0, reg) == Value(b, reg)
  {
    ReadModifyWrite(b, AecPkManual, AecBits(Value(b, AecPkManual), mode))
  }

  /** `ov5640_set_agc_mode`. */
  function AgcMode(b: Bus, enable: int): (r: (Bus, Status))
    ensures Failed(r.1) <==> Failed(ReadStatus(b, AecPkManual)) || Failed(WriteStatus(b, AecPkManual))
    ensures !Failed(r.1) ==>
      && Forced(Value(r.0, AecPkManual), AgcManualEnable, enable == 0)
      && SameOutside(Value(r.0, AecPkManual), Value(b, AecPkManual), AgcManualEnable)
    ensures forall reg :: reg != AecPkManual ==> Value(r.0, reg) == Value(b, reg)
  {
    ReadModifyWrite(b, AecPkManual, AgcBits(Value(b, AecPkManual), enable))
  }

  /** `ov5640_set_awb`. */
  function Awb(b: Bus, enableAuto: int): (r: (Bus, Status))
    ensures Failed(r.1) <==> Failed(ReadStatus(b, AwbManualControl)) || Failed(WriteStatus(b, AwbManualControl))
    ensures !Failed(r.1) ==>
      && Forced(Value(r.0, AwbManualControl), AwbManualEnable, enableAuto == 0)
      && SameOutside(Value(r.0, AwbManualControl), Value(b, AwbManualControl), AwbManualEnable)
    ensures forall reg :: reg != AwbManualControl ==> Value(r.0, reg) == Value(b, reg)
  {
    ReadModifyWrite(b, AwbManualControl, AwbBits(Value(b, AwbManualControl), enableAuto))
  }

  /** `ov5640_set_test_pattern`. */
  function TestPattern(b: Bus, value: int): (r: (Bus, Status))
    ensures Failed(r.1) <==> Failed(ReadStatus(b, PreIspTestSetting1)) || Failed(WriteStatus(b, PreIspTestSetting1))
    ensures !Failed(r.1) && value != 0 ==>
      && Value(r.0, PreIspTestSetting1) & TestPatternMask == PatternCode(value)
      && Forced(Value(r.0, PreIspTestSetting1), TestPatternEnable, true)
      && SameOutside(Value(r.0, PreIspTestSetting1), Value(b, PreIspTestSetting1), TestPatternMask | TestPatternEnable)
    ensures !Failed(r.1) && value == 0 ==>
      && Forced(Value(r.0, PreIspTestSetting1), TestPatternEnable, false)
      && SameOutside(Value(r.0, PreIspTestSetting1), Value(b, PreIspTestSetting1), TestPatternEnable)
    ensures forall reg :: reg != PreIspTestSetting1 ==> Value(r.0, reg) == Value(b, reg)
  {
    ReadModifyWrite(b, PreIspTestSetting1, TestPatternBits(Value(b, PreIspTestSetting1), value))
  }

  /**
   * `ov5640_set_saturation`: the value is written to the U and then the V
   * saturation register whatever the first write returns, and the result is
   * the bitwise OR of both statuses; it is negative exactly when either
   * write failed.
   */
  function Saturation(b: Bus, value: int): (r: (Bus, Status))
    ensures var v := SaturationValue(value) as bv8;
      r.0.sent == b.sent + [RegWrite(SdeSatU, v), RegWrite(SdeSatV, v)]
    ensures !Failed(WriteStatus(b, SdeSatU)) ==> Value(r.0, SdeSatU) == SaturationValue(value) as bv8
    ensures !Failed(WriteStatus(b, SdeSatV)) ==> Value(r.0, SdeSatV) == SaturationValue(value) as bv8
    ensures forall reg :: reg != SdeSatU && reg != SdeSatV ==> Value(r.0, reg) == Value(b, reg)
  {
    var v := SaturationValue(value) as bv8;
    var u := WriteReg(b, RegWrite(SdeSatU, v));
    var w := WriteReg(u.0, RegWrite(SdeSatV, v));
    (w.0, u.1 | w.1)
  }

  /** Setting the saturation returns the OR of its two writes' statuses. */
  lemma SaturationStatus(b: Bus, value: int)
    ensures Saturation(b, value).1 == WriteStatus(b, SdeSatU) | WriteStatus(b, SdeSatV)
  {
    var u := WriteReg(b, RegWrite(SdeSatU, SaturationValue(value) as bv8));
    assert u.0.writeResults == b.writeResults;
  }

  /** Setting the saturation fails exactly when one of its two writes fails. */
  lemma SaturationFails(b: Bus, value: int)
    ensures Failed(Saturation(b, value).1) <==> Failed(WriteStatus(b, SdeSatU)) || Failed(WriteStatus(b, SdeSatV))
  {
    SaturationStatus(b, value);
    OrFailed(WriteStatus(b, SdeSatU), WriteStatus(b, SdeSatV));
  }

  /** The controls `ov5640_s_ctrl` handles, and any other control id. */
  datatype CtrlId =
    | CidSaturation | CidAutoWhiteBalance | CidAutogain | CidExposureAuto
    | CidTestPattern | CidHflip | CidVflip | CidOther(id: u32)

  /** What `ov5640_s_ctrl` does for control `id` with the sensor powered: the handler's effect, or -EINVAL for an unknown control. */
  function Control(b: Bus, id: CtrlId, value: int): (r: (Bus, Status))
    ensures id.CidOther? ==> r == (b, EinvalStatus) && Failed(r.1)
  {
    match id
    case CidSaturation => Saturation(b, value)
    case CidAutoWhiteBalance => Awb(b, value)
    case CidAutogain => AgcMode(b, value)
    case CidExposureAuto => AecMode(b, value)
    case CidTestPattern => TestPattern(b, value)
    case CidHflip => Hflip(b, value)
    case CidVflip => Vflip(b, value)
    case CidOther(_) => (b, EinvalStatus)
  }

  /** The register a single-register control reads and writes back. */
  function ControlRegister(id: CtrlId): Option<Reg>
  {
    match id
    case CidAutoWhiteBalance => Some(AwbManualControl)
    case CidAutogain | CidExposureAuto => Some(AecPkManual)
    case CidTestPattern => Some(PreIspTestSetting1)
    case CidHflip => Some(TimingTcReg21)
    case CidVflip => Some(TimingTcReg20)
    case _ => None
  }

  /**
   * A control that read-modify-writes a register touches no other register,
   * and sends nothing when the read fails.
   */
  lemma ControlTouchesOnlyItsRegister(b: Bus, id: CtrlId, value: int, reg: Reg)
    requires ControlRegister(id).Some?
    ensures var r := Control(b, id, value);
      reg != ControlRegister(id).value ==> Value(r.0, reg) == Value(b, reg)
    ensures var r := Control(b, id, value);
      Failed(ReadStatus(b, ControlRegister(id).value)) ==> r == (b, ReadStatus(b, ControlRegister(id).value))
  {
  }

  /** Applying a flip, exposure, gain, white-balance or test-pattern control twice leaves the register as applying it once. */
  lemma ControlIdempotent(b: Bus, id: CtrlId, value: int)
    requires ControlRegister(id).Some?
    requires !Failed(ReadStatus(b, ControlRegister(id).value)) && !Failed(WriteStatus(b, ControlRegister(id).value))
    ensures var reg, b1 := ControlRegister(id).value, Control(b, id, value).0;
      Value(Control(b1, id, value).0, reg) == Value(b1, reg)
  {
    var v := Value(b, ControlRegister(id).value);
    match id {
      case CidAutoWhiteBalance => ModesIdempotent(v, value);
      case CidAutogain => ModesIdempotent(v, value);
      case CidExposureAuto => ModesIdempotent(v, value);
      case CidTestPattern => TestPatternIdempotent(v, value);
      case CidHflip => FlipsIdempotent(v, value);
      case CidVflip => FlipsIdempotent(v, value);
    }
  }

  /** A `struct v4l2_rect`. */
  datatype Rect = Rect(left: int, top: int, width: u32, height: u32)

  /** The part of a `struct v4l2_mbus_framefmt` the driver keeps: the bus code and the size. */
  datatype FrameFormat = FrameFormat(code: u32, width: u32, height: u32)

  /** `MEDIA_BUS_FMT_UYVY8_2X8`, the only bus code the sensor produces. */
  const UyvyCode: u32 := 0x2006

  /** One OV5640 sensor: its register transport, power state, mode, and active crop and format. */
  class Sensor {
    var bus: Bus
    var power: bool
    var currentMode: ModeIndex
    var crop: Rect
    var fmt: FrameFormat

    /** The state the probe sets up: 1080P in UYVY with the crop still zeroed, over the given transport. */
    constructor(b: Bus, powered: bool)
      ensures bus == b && power == powered
      ensures currentMode == 1 && fmt == FrameFormat(UyvyCode, 1920, 1080)
      ensures crop == Rect(0, 0, 0, 0)
      ensures ModeTable[currentMode] == ModeInfo(fmt.width, fmt.height)
    {
      bus := b;
      power := powered;
      currentMode := 1;
      crop := Rect(0, 0, 0, 0);
      fmt := FrameFormat(UyvyCode, 1920, 1080);
    }

    /** Read-modify-write of register `reg`, writing `update(v)` for the byte `v` read. */
    method UpdateRegister(reg: Reg, update: bv8 -> bv8) returns (ret: Status)
      modifies this`bus
      ensures (bus, ret) == ReadModifyWrite(old(bus), reg, update(Value(old(bus), reg)))
    {
      var (s, v) := ReadReg(bus, reg);
      if Failed(s) {
        return s;
      }
      var (b', w) := WriteReg(bus, RegWrite(reg, update(v)));
      bus := b';
      ret := w;
    }

    method SetHflip(value: int) returns (ret: Status)
      modifies this`bus
      ensures (bus, ret) == Hflip(old(bus), value)
    {
      ret := UpdateRegister(TimingTcReg21, v => MirrorBits(v, value));
    }

    method SetVflip(value: int) returns (ret: Status)
      modifies this`bus
      ensures (bus, ret) == Vflip(old(bus), value)
    {
      ret := UpdateRegister(TimingTcReg20, v => FlipBits(v, value));
    }

    method SetAecMode(mode: int) returns (ret: Status)
      modifies this`bus
      ensures (bus, ret) == AecMode(old(bus), mode)
    {
      ret := UpdateRegister(AecPkManual, v => AecBits(v, mode));
    }

    method SetAgcMode(enable: int) returns (ret: Status)
      modifies this`bus
      ensures (bus, ret) == AgcMode(old(bus), enable)
    {
      ret := UpdateRegister(AecPkManual, v => AgcBits(v, enable));
    }

    method SetAwb(enableAuto: int) returns (ret: Status)
      modifies this`bus
      ensures (bus, ret) == Awb(old(bus), enableAuto)
    {
      ret := UpdateRegister(AwbManualControl, v => AwbBits(v, enableAuto));
    }

    method SetTestPattern(value: int) returns (ret: Status)
      modifies this`bus
      ensures (bus, ret) == TestPattern(old(bus), value)
    {
      ret := UpdateRegister(PreIspTestSetting1, v => TestPatternBits(v, value));
    }

    method SetSaturation(value: int) returns (ret: Status)
      modifies this`bus
      ensures (bus, ret) == Saturation(old(bus), value)
    {
      var v := SaturationValue(value) as bv8;
      var (b1, s1) := WriteReg(bus, RegWrite(SdeSatU, v));
      bus := b1;
      var (b2, s2) := WriteReg(bus, RegWrite(SdeSatV, v));
      bus := b2;
      ret := s1 | s2;
    }

    /**
     * `ov5640_set_register_array`: the settings are written in order and the
     * loop stops at the first write that fails.
     */
    method SetRegisterArray(settings: seq<RegWrite>) returns (ret: Status)
      modifies this`bus
      ensures (bus, ret) == WriteArray(old(bus), settings)
    {
      ret := 0;
      var i := 0;
      while i < |settings|
        invariant 0 <= i <= |settings|
        invariant i == 0 ==> bus == old(bus) && ret == 0
        invariant 0 < i ==> WriteArray(old(bus), settings) ==
                            if Failed(ret) || i == |settings| then (bus, ret) else WriteArray(bus, settings[i..])
        invariant 0 < i < |settings| ==> !Failed(ret)
        decreases |settings| - i
      {
        var (b', s) := WriteReg(bus, settings[i]);
        assert WriteArray(bus, settings[i..]) == if Failed(s) || i + 1 == |settings| then (b', s) else WriteArray(b', settings[i + 1..]);
        bus := b';
        ret := s;
        i := i + 1;
        if Failed(s) {
          break;
        }
      }
    }

    /**
     * `ov5640_s_ctrl`: with the sensor powered off it returns 0 and touches
     * nothing; otherwise it runs the control's handler.
     */
    method SCtrl(id: CtrlId, value: int) returns (ret: Status)
      modifies this`bus
      ensures !power ==> ret == 0 && bus == old(bus)
      ensures power ==> (bus, ret) == Control(old(bus), id, value)
    {
      if !power {
        return 0;
      }
      match id {
        case CidSaturation => ret := SetSaturation(value);
        case CidAutoWhiteBalance => ret := SetAwb(value);
        case CidAutogain => ret := SetAgcMode(value);
        case CidExposureAuto => ret := SetAecMode(value);
        case CidTestPattern => ret := SetTestPattern(value);
        case CidHflip => ret := SetHflip(value);
        case CidVflip => ret := SetVflip(value);
        case CidOther(_) => ret := EinvalStatus;
      }
    }

    /**
     * `ov5640_set_format` on the active format: the nearest mode becomes the
     * current mode, and the crop and the format take its size.
     */
    method SetFormat(width: u32, height: u32) returns (ret: Status)
      modifies this`currentMode, this`crop, this`fmt
      ensures ret == 0
      ensures currentMode == NearestMode(width, height)
      ensures crop == old(crop).(width := ModeTable[currentMode].width, height := ModeTable[currentMode].height)
      ensures fmt == old(fmt).(width := crop.width, height := crop.height)
    {
      var newMode := FindNearestMode(width, height);
      crop := crop.(width := ModeTable[newMode].width, height := ModeTable[newMode].height);
      currentMode := newMode;
      fmt := fmt.(width := crop.width, height := crop.height);
      ret := 0;
    }
  }
}

/**
 * OV5640 register addresses and the read-modify-write bit transforms of the
 * `ov5640_set_*` control handlers, on 8-bit register values.
 */
module Ov5640Regs {
  /** A 16-bit register address. */
  type Reg = x: int | 0 <= x < 0x1_0000

  const AwbManualControl: Reg := 0x3406
  const AwbManualEnable: bv8 := 0x01
  const AecPkManual: Reg := 0x3503
  const AecManualEnable: bv8 := 0x01
  const AgcManualEnable: bv8 := 0x02
  const TimingTcReg20: Reg := 0x3820
  const SensorVflip: bv8 := 0x02
  const IspVflip: bv8 := 0x04
  const TimingTcReg21: Reg := 0x3821
  const SensorMirror: bv8 := 0x02
  const PreIspTestSetting1: Reg := 0x503d
  const TestPatternMask: bv8 := 0x03
  const TestPatternEnable: bv8 := 0x80
  const SdeSatU: Reg := 0x5583
  const SdeSatV: Reg := 0x5584

  /** `V4L2_EXPOSURE_AUTO` of the V4L2 exposure menu. */
  const ExposureAuto: int := 0

  /** Both vertical-flip bits of TIMING_TC_REG20. */
  const VflipBits: bv8 := SensorVflip | IspVflip

  /** `r` agrees with `v` on every bit outside `mask`. */
  predicate SameOutside(r: bv8, v: bv8, mask: bv8)
  {
    r & !mask == v & !mask
  }

  /** A flag register after setting `on` or clearing it: the bits of `mask` all set or all clear. */
  predicate Forced(r: bv8, mask: bv8, on: bool)
  {
    r & mask == if on then mask else 0
  }

  /** `ov5640_set_hflip`: a nonzero value sets the sensor mirror bit, zero clears it. */
  function MirrorBits(v: bv8, value: int): (r: bv8)
    ensures Forced(r, SensorMirror, value != 0)
    ensures SameOutside(r, v, SensorMirror)
  {
    if value == 0 then v & !SensorMirror else v | SensorMirror
  }

  /** `ov5640_set_vflip`: the opposite sense: zero sets both flip bits, a nonzero value clears them. */
  function FlipBits(v: bv8, value: int): (r: bv8)
    ensures Forced(r, VflipBits, value == 0)
    ensures SameOutside(r, v, VflipBits)
  {
    if value == 0 then v | VflipBits else v & !VflipBits
  }

  /** `ov5640_set_aec_mode`: AUTO clears the manual-exposure bit, any other mode sets it. */
  function AecBits(v: bv8, mode: int): (r: bv8)
    ensures Forced(r, AecManualEnable, mode != ExposureAuto)
    ensures SameOutside(r, v, AecManualEnable)
  {
    if mode == ExposureAuto then v & !AecManualEnable else v | AecManualEnable
  }

  /** `ov5640_set_agc_mode`: enabling automatic gain clears the manual-gain bit, disabling sets it. */
  function AgcBits(v: bv8, enable: int): (r: bv8)
    ensures Forced(r, AgcManualEnable, enable == 0)
    ensures SameOutside(r, v, AgcManualEnable)
  {
    if enable != 0 then v & !AgcManualEnable else v | AgcManualEnable
  }

  /** `ov5640_set_awb`: automatic white balance clears the manual bit, manual sets it. */
  function AwbBits(v: bv8, enableAuto: int): (r: bv8)
    ensures Forced(r, AwbManualEnable, enableAuto == 0)
    ensures SameOutside(r, v, AwbManualEnable)
  {
    if enableAuto != 0 then v & !AwbManualEnable else v | AwbManualEnable
  }

  /**
   * `OV5640_SET_TEST_PATTERN(value - 1)`: the low two bits of `value - 1` in
   * two's complement, which for an `int` is its remainder modulo 4.
   */
  function PatternCode(value: int): (r: bv8)
    ensures r & !TestPatternMask == 0
  {
    var k := (value - 1) % 4;
    if k == 0 then 0 else if k == 1 then 1 else if k == 2 then 2 else 3
  }

  /**
   * `ov5640_set_test_pattern`: a nonzero value replaces the pattern bits by
   * its code and sets the enable bit; zero clears only the enable bit.
   */
  function TestPatternBits(v: bv8, value: int): (r: bv8)
    ensures value != 0 ==>
      && r & TestPatternMask == PatternCode(value)
      && Forced(r, TestPatternEnable, true)
      && SameOutside(r, v, TestPatternMask | TestPatternEnable)
    ensures value == 0 ==> Forced(r, TestPatternEnable, false) && SameOutside(r, v, TestPatternEnable)
  {
    if value != 0 then ((v & !TestPatternMask) | PatternCode(value)) | TestPatternEnable
    else v & !TestPatternEnable
  }

  /** The four menu entries after "Disabled" select patterns 0 to 3 in order; the code repeats every four values. */
  lemma PatternMenu(value: int)
    ensures PatternCode(1) == 0 && PatternCode(2) == 1 && PatternCode(3) == 2 && PatternCode(4) == 3
    ensures PatternCode(value + 4) == PatternCode(value)
  {
    assert (value + 4 - 1) % 4 == (value - 1) % 4;
  }

  /** Writing the same flip twice leaves the register as writing it once. */
  lemma FlipsIdempotent(v: bv8, value: int)
    ensures MirrorBits(MirrorBits(v, value), value) == MirrorBits(v, value)
    ensures FlipBits(FlipBits(v, value), value) == FlipBits(v, value)
  {
  }

  /** Writing the same exposure, gain or white-balance mode twice leaves the register as writing it once. */
  lemma ModesIdempotent(v: bv8, value: int)
    ensures AecBits(AecBits(v, value), value) == AecBits(v, value)
    ensures AgcBits(AgcBits(v, value), value) == AgcBits(v, value)
    ensures AwbBits(AwbBits(v, value), value) == AwbBits(v, value)
  {
  }

  /** Selecting the same test pattern twice leaves the register as selecting it once. */
  lemma TestPatternIdempotent(v: bv8, value: int)
    ensures TestPatternBits(TestPatternBits(v, value), value) == TestPatternBits(v, value)
  {
  }

  /**
   * A flip written and then written back restores the register it started
   * from: for hflip, 1 then 0 on a register with the mirror bit clear; for
   * vflip, whose sense is reversed, 0 then 1 on a register with both flip
   * bits clear.
   */
  lemma FlipsUndo(v: bv8)
    ensures v & SensorMirror == 0 ==> MirrorBits(MirrorBits(v, 1), 0) == v
    ensures v & VflipBits == 0 ==> FlipBits(FlipBits(v, 0), 1) == v
  {
  }

  /**
   * `ov5640_set_saturation`'s register value `value * 0x10 + 0x40`, cut to the
   * byte the register takes; the control's range -4..4 gives 0x00..0x80.
   */
  function SaturationValue(value: int): (r: int)
    ensures 0 <= r < 0x100
    ensures (r - (value * 0x10 + 0x40)) % 0x100 == 0
    ensures -4 <= value <= 4 ==> r == value * 0x10 + 0x40 && r <= 0x80
  {
    (value * 0x10 + 0x40) % 0x100
  }
}

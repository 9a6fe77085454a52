/**
 * The pure HAL-to-HFI translators of the packetizer: the flag-indexed lookup
 * tables and `to_hfi_type`, and the switch-based `to_hfi_*` functions.
 */
module Translate {
  import opened Base
  import opened Hal
  import Hfi

  /** One designated initializer `[ilog2(flag)] = code` of a lookup table. */
  datatype TableEntry = TableEntry(flag: Flag, code: int)

  /** The slot a table entry lands in. */
  function Slot(e: TableEntry): nat
  {
    Log2(e.flag)
  }

  /** Array `t` after the initializer `[i] = v`: it grows with zero slots to reach `i`. */
  function Place(t: seq<int>, i: nat, v: int): (r: seq<int>)
    ensures |r| == if i < |t| then |t| else i + 1
    ensures r[i] == v
    ensures forall j | 0 <= j < |r| && j != i :: r[j] == if j < |t| then t[j] else 0
  {
    if i < |t| then t[i := v] else t + seq(i - |t|, _ => 0) + [v]
  }

  /**
   * The array a C designated-initializer list defines: just long enough for its
   * highest index, later initializers of the same index win, and slots no
   * initializer names are 0.
   */
  function Designate(es: seq<TableEntry>): (t: seq<int>)
    ensures forall k | 0 <= k < |es| :: Slot(es[k]) < |t|
    ensures |t| == 0 || exists k | 0 <= k < |es| :: |t| == Slot(es[k]) + 1
  {
    if es == [] then []
    else
      var last := es[|es| - 1];
      var t := Place(Designate(es[..|es| - 1]), Slot(last), last.code);
      assert forall k | 0 <= k < |es| - 1 :: es[..|es| - 1][k] == es[k];
      t
  }

  /** The entry at `k` is the last one naming its slot. */
  predicate LastForSlot(es: seq<TableEntry>, k: nat)
    requires k < |es|
  {
    forall k' | k < k' < |es| :: Slot(es[k']) != Slot(es[k])
  }

  /** An entry not overridden by a later one holds its slot. */
  lemma {:induction false} DesignateHolds(es: seq<TableEntry>, k: nat)
    requires k < |es| && LastForSlot(es, k)
    ensures Designate(es)[Slot(es[k])] == es[k].code
  {
    var init := es[..|es| - 1];
    if k < |es| - 1 {
      assert init[k] == es[k];
      assert LastForSlot(init, k) by {
        forall k' | k < k' < |init| ensures Slot(init[k']) != Slot(init[k]) {
          assert init[k'] == es[k'];
        }
      }
      DesignateHolds(init, k);
      assert Slot(es[|es| - 1]) != Slot(es[k]);
    }
  }

  /** A slot no initializer names reads 0. */
  lemma {:induction false} DesignateGap(es: seq<TableEntry>, i: nat)
    requires i < |Designate(es)|
    requires forall k | 0 <= k < |es| :: Slot(es[k]) != i
    ensures Designate(es)[i] == 0
  {
    var init := es[..|es| - 1];
    if i < |Designate(init)| {
      forall k | 0 <= k < |init| ensures Slot(init[k]) != i {
        assert init[k] == es[k];
      }
      DesignateGap(init, i);
    }
  }

  const ProfileEntries: seq<TableEntry> := [
    TableEntry(Hal.H264ProfileBaseline, Hfi.H264ProfileBaseline),
    TableEntry(Hal.H264ProfileMain, Hfi.H264ProfileMain),
    TableEntry(Hal.H264ProfileHigh, Hfi.H264ProfileHigh),
    TableEntry(Hal.H264ProfileConstrainedBase, Hfi.H264ProfileConstrainedBase),
    TableEntry(Hal.H264ProfileConstrainedHigh, Hfi.H264ProfileConstrainedHigh),
    TableEntry(Hal.VpxProfileVersion1, Hfi.VpxProfileVersion1),
    TableEntry(Hal.MvcProfileStereoHigh, Hfi.H264ProfileStereoHigh)]

  const EntropyEntries: seq<TableEntry> := [
    TableEntry(Hal.H264EntropyCavlc, Hfi.H264EntropyCavlc),
    TableEntry(Hal.H264EntropyCabac, Hfi.H264EntropyCabac)]

  const CabacEntries: seq<TableEntry> := [
    TableEntry(Hal.H264CabacModel0, Hfi.H264CabacModel0),
    TableEntry(Hal.H264CabacModel1, Hfi.H264CabacModel1),
    TableEntry(Hal.H264CabacModel2, Hfi.H264CabacModel2)]

  const ColorEntries: seq<TableEntry> := [
    TableEntry(Hal.ColorFormatMonochrome, Hfi.ColorFormatMonochrome),
    TableEntry(Hal.ColorFormatNv12, Hfi.ColorFormatNv12),
    TableEntry(Hal.ColorFormatNv21, Hfi.ColorFormatNv21),
    TableEntry(Hal.ColorFormatNv12Tile4x4, Hfi.ColorFormatNv12Tile4x4),
    TableEntry(Hal.ColorFormatNv21Tile4x4, Hfi.ColorFormatNv21Tile4x4),
    TableEntry(Hal.ColorFormatYuyv, Hfi.ColorFormatYuyv),
    TableEntry(Hal.ColorFormatYvyu, Hfi.ColorFormatYvyu),
    TableEntry(Hal.ColorFormatUyvy, Hfi.ColorFormatUyvy),
    TableEntry(Hal.ColorFormatVyuy, Hfi.ColorFormatVyuy),
    TableEntry(Hal.ColorFormatRgb565, Hfi.ColorFormatRgb565),
    TableEntry(Hal.ColorFormatBgr565, Hfi.ColorFormatBgr565),
    TableEntry(Hal.ColorFormatRgb888, Hfi.ColorFormatRgb888),
    TableEntry(Hal.ColorFormatBgr888, Hfi.ColorFormatBgr888),
    TableEntry(Hal.ColorFormatNv12Ubwc, Hfi.ColorFormatNv12Ubwc),
    TableEntry(Hal.ColorFormatNv12Tp10Ubwc, Hfi.ColorFormatYuv420Tp10Ubwc)]

  const NalEntries: seq<TableEntry> := [
    TableEntry(Hal.NalFormatStartcodes, Hfi.NalFormatStartcodes),
    TableEntry(Hal.NalFormatOneNalPerBuffer, Hfi.NalFormatOneNalPerBuffer),
    TableEntry(Hal.NalFormatOneByteLength, Hfi.NalFormatOneByteLength),
    TableEntry(Hal.NalFormatTwoByteLength, Hfi.NalFormatTwoByteLength),
    TableEntry(Hal.NalFormatFourByteLength, Hfi.NalFormatFourByteLength)]

  /** The initializer list of the table a property domain is looked up in, if any. */
  function EntriesFor(domain: HalProperty): Option<seq<TableEntry>>
  {
    match domain
    case ParamProfileLevelCurrent => Some(ProfileEntries)
    case ParamVencH264EntropyControl => Some(EntropyEntries)
    case ParamVencH264EntropyCabacModel => Some(CabacEntries)
    case ParamUncompressedFormatSelect => Some(ColorEntries)
    case ParamNalStreamFormatSelect => Some(NalEntries)
    case _ => None
  }

  /** `(index >= ARRAY_SIZE(table)) ? -ENOTSUPP : table[index]`. */
  function Lookup(table: seq<int>, index: nat): int
  {
    if index >= |table| then -ENOTSUPP else table[index]
  }

  /**
   * `to_hfi_type`: a value that is neither 0 nor a power of two is rejected
   * with -EINVAL; otherwise its bit index (0 stays 0) selects the slot of the
   * domain's table; an index past the table, or a domain without a table,
   * gives -ENOTSUPP.
   */
  function ToHfiType(domain: HalProperty, halType: int): (r: int)
    ensures halType != 0 && !IsPow2(halType) ==> r == -EINVAL
    ensures IsPow2(halType) && EntriesFor(domain).None? ==> r == -ENOTSUPP
    ensures halType == 0 && EntriesFor(domain).None? ==> r == -ENOTSUPP
    ensures IsPow2(halType) && EntriesFor(domain).Some? ==>
      r == if Log2(halType) < |Designate(EntriesFor(domain).value)|
           then Designate(EntriesFor(domain).value)[Log2(halType)] else -ENOTSUPP
    ensures halType == 0 && EntriesFor(domain).Some? ==> r == Designate(EntriesFor(domain).value)[0]
  {
    if halType != 0 && !IsPow2(halType) then -EINVAL
    else
      var index := if halType != 0 then Log2(halType) else 0;
      match EntriesFor(domain)
      case Some(entries) => Lookup(Designate(entries), index)
      case None => -ENOTSUPP
  }

  /**
   * Every flag listed in a domain's table (and not overridden by a later
   * initializer of the same slot) translates to the HFI code listed with it.
   */
  lemma ListedFlagTranslates(domain: HalProperty, k: nat)
    requires EntriesFor(domain).Some?
    requires k < |EntriesFor(domain).value|
    requires LastForSlot(EntriesFor(domain).value, k)
    ensures ToHfiType(domain, EntriesFor(domain).value[k].flag) == EntriesFor(domain).value[k].code
  {
    DesignateHolds(EntriesFor(domain).value, k);
  }

  /** A power of two whose slot lies inside the table but that no initializer names translates to 0. */
  lemma UnlistedFlagIsZero(domain: HalProperty, flag: int)
    requires EntriesFor(domain).Some? && IsPow2(flag)
    requires Log2(flag) < |Designate(EntriesFor(domain).value)|
    requires forall k | 0 <= k < |EntriesFor(domain).value| ::
      Slot(EntriesFor(domain).value[k]) != Log2(flag)
    ensures ToHfiType(domain, flag) == 0
  {
    DesignateGap(EntriesFor(domain).value, Log2(flag));
  }

  /** `to_hfi_layout`: anything but TOP_BOTTOM is sent as the sequential layout. */
  function ToHfiLayout(layout: HalBufferLayout): (r: u32)
    ensures r == if layout == LayoutTopBottom then Hfi.MvcBufferLayoutTopBottom
                 else Hfi.MvcBufferLayoutSeq
  {
    match layout
    case LayoutTopBottom => Hfi.MvcBufferLayoutTopBottom
    case LayoutSeq => Hfi.MvcBufferLayoutSeq
    case LayoutOther(_) => Hfi.MvcBufferLayoutSeq
  }

  /** `to_hfi_codec`: 0 exactly for a codec the firmware does not know. */
  function ToHfiCodec(codec: HalCodec): (r: u32)
    ensures r == 0 <==> codec.CodecOther?
  {
    match codec
    case CodecMvc => Hfi.CodecH264
    case CodecH264 => Hfi.CodecH264
    case CodecH263 => Hfi.CodecH263
    case CodecMpeg1 => Hfi.CodecMpeg1
    case CodecMpeg2 => Hfi.CodecMpeg2
    case CodecMpeg4 => Hfi.CodecMpeg4
    case CodecDivx311 => Hfi.CodecDivx311
    case CodecDivx => Hfi.CodecDivx
    case CodecVc1 => Hfi.CodecVc1
    case CodecSpark => Hfi.CodecSpark
    case CodecVp8 => Hfi.CodecVp8
    case CodecHevc => Hfi.CodecHevc
    case CodecHevcHybrid => Hfi.CodecHevcHybrid
    case CodecOther(_) => 0
  }

  /** MVC sessions are announced to the firmware as H.264. */
  lemma MvcIsH264()
    ensures ToHfiCodec(CodecMvc) == ToHfiCodec(CodecH264) == Hfi.CodecH264
  {}

  /** `HAL_BUFFER_NONE`, the "unknown role" answer of `to_hfi_buffer`. */
  const BufferNone: u32 := 0

  /** `to_hfi_buffer`: `HAL_BUFFER_NONE` exactly for a role the firmware does not know. */
  function ToHfiBuffer(b: HalBuffer): (r: u32)
    ensures r == BufferNone <==> b.BufOther?
  {
    match b
    case BufInput => Hfi.BufferInput
    case BufOutput => Hfi.BufferOutput
    case BufOutput2 => Hfi.BufferOutput2
    case BufExtradataInput => Hfi.BufferExtradataInput
    case BufExtradataOutput => Hfi.BufferExtradataOutput
    case BufExtradataOutput2 => Hfi.BufferExtradataOutput2
    case BufInternalScratch => Hfi.BufferInternalScratch
    case BufInternalScratch1 => Hfi.BufferInternalScratch1
    case BufInternalScratch2 => Hfi.BufferInternalScratch2
    case BufInternalPersist => Hfi.BufferInternalPersist
    case BufInternalPersist1 => Hfi.BufferInternalPersist1
    case BufOther(_) => BufferNone
  }

  /** The three extradata kinds the firmware reports through the generic INDEX_EXTRADATA property. */
  predicate IsIndexedExtradata(index: HalExtradata)
  {
    index == ExtraAspectRatio || index == ExtraInputCrop || index == ExtraDigitalZoom
  }

  /**
   * `to_hfi_extradata_index`: the property carrying an extradata kind, 0 for an
   * unknown kind; the indexed kinds all share `INDEX_EXTRADATA`.
   */
  function ToHfiExtradataIndex(index: HalExtradata): (r: int)
    ensures r == 0 <==> index.ExtraOther?
    ensures IsIndexedExtradata(index) ==> r == Hfi.PropIndexExtradata
  {
    match index
    case ExtraMbQuantization => Hfi.PropVdecMbQuantization
    case ExtraInterlaceVideo => Hfi.PropVdecInterlaceVideoExtradata
    case ExtraVc1Framedisp => Hfi.PropVdecVc1FramedispExtradata
    case ExtraVc1Seqdisp => Hfi.PropVdecVc1SeqdispExtradata
    case ExtraTimestamp => Hfi.PropVdecTimestampExtradata
    case ExtraS3dFramePacking => Hfi.PropS3dFramePackingExtradata
    case ExtraFrameRate => Hfi.PropVdecFrameRateExtradata
    case ExtraPanscanWindow => Hfi.PropVdecPanscanWndwExtradata
    case ExtraRecoveryPointSei => Hfi.PropVdecRecoveryPointSeiExtradata
    case ExtraMultisliceInfo => Hfi.PropVencMultiSliceInfo
    case ExtraNumConcealedMb => Hfi.PropVdecNumConcealedMb
    case ExtraAspectRatio => Hfi.PropIndexExtradata
    case ExtraInputCrop => Hfi.PropIndexExtradata
    case ExtraDigitalZoom => Hfi.PropIndexExtradata
    case ExtraMpeg2Seqdisp => Hfi.PropVdecMpeg2SeqdispExtradata
    case ExtraStreamUserdata => Hfi.PropVdecStreamUserdataExtradata
    case ExtraFrameQp => Hfi.PropVdecFrameQpExtradata
    case ExtraFrameBitsInfo => Hfi.PropVdecFrameBitsInfoExtradata
    case ExtraLtrInfo => Hfi.PropVencLtrInfo
    case ExtraMetadataMbi => Hfi.PropVencMbiDumping
    case ExtraOther(_) => 0
  }

  /**
   * `to_hfi_extradata_id`: the indexed kinds get their own identifier, every
   * other kind the identifier of its property; 0 exactly for an unknown kind.
   */
  function ToHfiExtradataId(index: HalExtradata): (r: int)
    ensures r == 0 <==> index.ExtraOther?
    ensures !IsIndexedExtradata(index) ==> r == ToHfiExtradataIndex(index)
  {
    match index
    case ExtraAspectRatio => Hfi.ExtradataAspectRatio
    case ExtraInputCrop => Hfi.ExtradataInputCrop
    case ExtraDigitalZoom => Hfi.ExtradataDigitalZoom
    case _ => ToHfiExtradataIndex(index)
  }

  /** `to_hfi_buf_mode`: 0 exactly for an unknown allocation mode. */
  function ToHfiBufMode(mode: HalBufferMode): (r: u32)
    ensures r == 0 <==> mode.ModeOther?
  {
    match mode
    case ModeStatic => Hfi.BufferModeStatic
    case ModeRing => Hfi.BufferModeRing
    case ModeDynamic => Hfi.BufferModeDynamic
    case ModeOther(_) => 0
  }

  /** `to_hfi_ltr_mode`: an unknown mode is sent as "LTR disabled". */
  function ToHfiLtrMode(mode: HalLtrMode): (r: u32)
    ensures mode.LtrOther? || mode == LtrDisable ==> r == Hfi.LtrModeDisable
  {
    match mode
    case LtrDisable => Hfi.LtrModeDisable
    case LtrManual => Hfi.LtrModeManual
    case LtrPeriodic => Hfi.LtrModePeriodic
    case LtrOther(_) => Hfi.LtrModeDisable
  }

  /** `to_hfi_ssr_type`: an unknown trigger falls back to the watchdog interrupt. */
  function ToHfiSsrType(t: HalSsrTrigger): (r: u32)
    ensures t.SsrOther? || t == SsrHwWdogIrq ==> r == Hfi.TestSsrHwWdogIrq
  {
    match t
    case SsrErrFatal => Hfi.TestSsrSwErrFatal
    case SsrSwDivByZero => Hfi.TestSsrSwDivByZero
    case SsrHwWdogIrq => Hfi.TestSsrHwWdogIrq
    case SsrOther(_) => Hfi.TestSsrHwWdogIrq
  }
}

/**
 * `pkt_session_set_property`: after a fixed header, one case per HAL
 * property stores the firmware tag in the first property word and the
 * property's firmware structure right after it, then grows the packet by the
 * tag and the structure. Invalid inputs are handled in three ways, all kept
 * here: some cases stop with -EINVAL before growing the packet (after
 * whatever they already stored), some only log and leave the offending word
 * unwritten, and two (VPE operations, extradata) set -EINVAL but still grow
 * the packet.
 */
module SetProperty {
  import opened Base
  import opened Hal
  import opened Packet
  import Hfi
  import Translate

  /**
   * What one property case does after the header: its result, the tag it
   * stores in the first property word (if any), the structure words after
   * the tag, and how much it grows the packet.
   */
  datatype Effect = Effect(ret: int, tag: Option<u32>, payload: map<Field, u32>, grow: nat)

  /**
   * The arms of the switch of `pkt_session_set_property`: the properties it
   * accepts and ignores, the groups of cases encoded below (in source order),
   * the properties it refuses as not implemented yet, and its `default:`.
   */
  datatype Case =
    | Ignored | FormatGroup | DecoderOutputGroup | BitstreamGroup | RateControlGroup
    | QuantizationGroup | PreprocessingGroup | ReferenceGroup | LayeringGroup
    | NotImplementedYet | Default

  /** The arm of the switch each property reaches. */
  function CaseOf(ptype: HalProperty): Case
  {
    match ptype
    case ParamUncompressedPlaneActualConstraintsInfo | ParamUncompressedPlaneActualInfo
       | ParamExtraDataHeaderConfig | ParamVencMpeg4ShortHeader | ParamVencMpeg4AcPrediction => Ignored
    case ConfigFrameRate | ParamUncompressedFormatSelect | ParamFrameSize | ConfigRealtime
       | ParamBufferCountActual | ParamBufferSizeActual | ParamBufferDisplayHoldCountActual => FormatGroup
    case ParamNalStreamFormatSelect | ParamVdecOutputOrder | ParamVdecPictureTypeDecode
       | ParamVdecOutput2KeepAspectRatio | ConfigVdecPostLoopDeblocker | ParamVdecMultiStream
       | ParamVdecDisplayPictureBufferCount => DecoderOutputGroup
    case ParamDivxFormat | ConfigVdecMbErrorMapReporting | ParamVdecContinueDataTransfer
       | ParamVdecSyncFrameDecode | ParamVencSyncFrameSequenceHeader | ConfigVencRequestIframe => BitstreamGroup
    case ConfigVencTargetBitrate | ConfigVencMaxBitrate | ParamProfileLevelCurrent
       | ParamVencH264EntropyControl | ParamVencRateControl | ParamVencMpeg4TimeResolution
       | ParamVencMpeg4HeaderExtension | ParamVencH264DeblockControl => RateControlGroup
    case ParamVencSessionQp | ParamVencSessionQpRange | ParamVencSearchRange
       | ParamVencMaxNumBFrames | ConfigVencIntraPeriod | ConfigVencIdrPeriod
       | ParamVdecConcealColor => QuantizationGroup
    case ConfigVpeOperations | ParamVencIntraRefresh | ParamVencMultiSliceControl
       | ParamIndexExtradata | ParamVencSliceDeliveryMode | ParamVencH264VuiTimingInfo
       | ConfigVpeDeinterlace | ParamVencH264GenerateAudnal | ParamBufferAllocMode => PreprocessingGroup
    case ParamVdecFrameAssembly | ParamVencH264VuiBitstreamRestrc | ParamVencPreserveTextQuality
       | ParamVdecScsThreshold | ParamMvcBufferLayout | ParamVencLtrmode | ConfigVencUseltrframe
       | ConfigVencMarkltrframe => ReferenceGroup
    case ParamVencHierPMaxEnhLayers | ConfigVencHierPNumFrames | ParamVencDisableRcTimestamp
       | ParamVencEnableInitialQp | ParamVpeColorSpaceConversion | ParamVencVpxErrorResilienceMode
       | ParamVencH264NalSvcExt | ConfigVencPerfMode | ParamVencHierBMaxEnhLayers
       | ParamVdecNonSecureOutput2 | ParamVencHierPHybridMode => LayeringGroup
    case ConfigBufferRequirements | ConfigPriority | ConfigBatchInfo | ParamMetadataPassThrough
       | SysIdleIndicator | ParamUncompressedFormatSupported | ParamInterlaceFormatSupported
       | ParamChromaSite | ParamPropertiesSupported | ParamProfileLevelSupported
       | ParamCapabilitySupported | ParamNalStreamFormatSupported | ParamMultiViewFormat
       | ParamMaxSequenceHeaderSize | ParamCodecSupported | ParamVdecMultiViewSelect
       | ParamVdecMbQuantization | ParamVdecNumConcealedMb | ParamVdecH264EntropySwitching
       | ParamVencMpeg4DataPartitioning | ConfigBufferCountActual | ConfigVdecMultiStream
       | ParamVencMultiSliceInfo | ConfigVencTimestampScale | ParamVencLowLatency => NotImplementedYet
    case _ => Default
  }

  /** The properties the firmware core does not implement yet. */
  predicate NotImplemented(ptype: HalProperty)
  {
    CaseOf(ptype) == NotImplementedYet
  }

  /** The properties whose case does nothing at all and reports success. */
  predicate IgnoredProperty(ptype: HalProperty)
  {
    CaseOf(ptype) == Ignored
  }

  /**
   * `pdata` points to the structure the property's case reads. Properties
   * whose case never reads `pdata` accept anything; the copied structures
   * must be as long as the firmware structures.
   */
  predicate Fits(ptype: HalProperty, pdata: PropertyData)
  {
    match ptype
    case ConfigRealtime | ParamVdecOutput2KeepAspectRatio | ConfigVdecPostLoopDeblocker
       | ConfigVdecMbErrorMapReporting | ParamVdecContinueDataTransfer | ParamVdecSyncFrameDecode
       | ParamVencSyncFrameSequenceHeader | ParamVencSliceDeliveryMode | ConfigVpeDeinterlace
       | ParamVencH264GenerateAudnal | ParamVdecFrameAssembly | ParamVencH264VuiBitstreamRestrc
       | ParamVencPreserveTextQuality | ParamVencDisableRcTimestamp
       | ParamVencVpxErrorResilienceMode | ParamVencH264NalSvcExt | ParamVdecNonSecureOutput2
       | ParamVdecPictureTypeDecode | ParamVencMpeg4TimeResolution | ConfigVencIdrPeriod
       | ParamVdecConcealColor | ParamVdecScsThreshold | ConfigVencMarkltrframe
       | ParamVencHierPMaxEnhLayers | ConfigVencHierPNumFrames | ConfigVencPerfMode
       | ParamVencHierBMaxEnhLayers | ParamVencHierPHybridMode => pdata.Word?
    case ConfigFrameRate => pdata.FrameRate?
    case ParamUncompressedFormatSelect => pdata.UncompressedFormat?
    case ParamFrameSize => pdata.FrameSize?
    case ParamBufferCountActual => pdata.BufferCount?
    case ParamBufferSizeActual => pdata.BufferSize?
    case ParamBufferDisplayHoldCountActual => pdata.HoldCount?
    case ParamNalStreamFormatSelect => pdata.NalFormat?
    case ParamVdecOutputOrder => pdata.OutputOrder?
    case ParamVdecMultiStream => pdata.MultiStream?
    case ParamVdecDisplayPictureBufferCount => pdata.DisplayPictureBufferCount?
    case ParamDivxFormat => pdata.DivxFormat?
    case ConfigVencTargetBitrate => pdata.Bitrate?
    case ConfigVencMaxBitrate => pdata.Bitrate?
    case ParamProfileLevelCurrent => pdata.ProfileLevel?
    case ParamVencH264EntropyControl => pdata.EntropyControl?
    case ParamVencRateControl => pdata.RateControl?
    case ParamVencMpeg4HeaderExtension => pdata.PointerValue?
    case ParamVencH264DeblockControl => pdata.DeblockControl?
    case ParamVencSessionQp => pdata.Quantization?
    case ParamVencSessionQpRange => pdata.QuantizationRange?
    case ParamVencSearchRange => pdata.SearchRange?
    case ParamVencMaxNumBFrames => pdata.StructCopy? && |pdata.words| * 4 == Hfi.SizeofMaxNumBFrames
    case ConfigVencIntraPeriod => pdata.StructCopy? && |pdata.words| * 4 == Hfi.SizeofIntraPeriod
    case ConfigVpeOperations => pdata.Operations?
    case ParamVencIntraRefresh => pdata.IntraRefresh?
    case ParamVencMultiSliceControl => pdata.MultiSliceControl?
    case ParamIndexExtradata => pdata.ExtradataEnable?
    case ParamVencH264VuiTimingInfo => pdata.VuiTiming?
    case ParamBufferAllocMode => pdata.AllocMode?
    case ParamMvcBufferLayout => pdata.MvcLayout?
    case ParamVencLtrmode => pdata.LtrModeSetting?
    case ConfigVencUseltrframe => pdata.LtrUse?
    case ParamVencEnableInitialQp => pdata.InitialQp?
    case ParamVpeColorSpaceConversion =>
      && pdata.ColorSpaceConversion?
      && |pdata.matrix| == Hfi.CscMatrixCoeffs
      && |pdata.bias| == Hfi.CscBiasCoeffs
      && |pdata.limit| == Hfi.CscLimitCoeffs
    case _ => true
  }

  // The inner switches of the enumerated payload words; None is a value the case only logs.

  function OutputOrderCode(o: HalOutputOrder): (r: Option<u32>)
    ensures r.None? <==> o.OrderOther?
  {
    match o
    case OrderDecode => Some(Hfi.OutputOrderDecode)
    case OrderDisplay => Some(Hfi.OutputOrderDisplay)
    case OrderOther(_) => None
  }

  function DivxCode(d: HalDivxFormat): (r: Option<u32>)
    ensures r.None? <==> d.DivxOther?
  {
    match d
    case Divx4 => Some(Hfi.DivxFormat4)
    case Divx5 => Some(Hfi.DivxFormat5)
    case Divx6 => Some(Hfi.DivxFormat6)
    case DivxOther(_) => None
  }

  function RateControlCode(rc: HalRateControl): (r: Option<u32>)
    ensures r.None? <==> rc.RcOther?
  {
    match rc
    case RcOff => Some(Hfi.RateControlOff)
    case RcCbrCfr => Some(Hfi.RateControlCbrCfr)
    case RcCbrVfr => Some(Hfi.RateControlCbrVfr)
    case RcVbrCfr => Some(Hfi.RateControlVbrCfr)
    case RcVbrVfr => Some(Hfi.RateControlVbrVfr)
    case RcOther(_) => None
  }

  function DeblockCode(m: HalDeblockMode): (r: Option<u32>)
    ensures r.None? <==> m.DbOther?
  {
    match m
    case DbDisable => Some(Hfi.H264DbModeDisable)
    case DbSkipSliceBoundary => Some(Hfi.H264DbModeSkipSliceBoundary)
    case DbAllBoundary => Some(Hfi.H264DbModeAllBoundary)
    case DbOther(_) => None
  }

  function RotateCode(r0: HalRotate): (r: Option<u32>)
    ensures r.None? <==> r0.RotateOther?
  {
    match r0
    case RotateNone => Some(Hfi.Rotate0)
    case Rotate90 => Some(Hfi.Rotate90)
    case Rotate180 => Some(Hfi.Rotate180)
    case Rotate270 => Some(Hfi.Rotate270)
    case RotateOther(_) => None
  }

  function FlipCode(f: HalFlip): (r: Option<u32>)
    ensures r.None? <==> f.FlipOther?
  {
    match f
    case FlipNone => Some(Hfi.FlipNone)
    case FlipHorizontal => Some(Hfi.FlipHorizontal)
    case FlipVertical => Some(Hfi.FlipVertical)
    case FlipOther(_) => None
  }

  function IntraRefreshCode(m: HalIntraRefresh): (r: Option<u32>)
    ensures r.None? <==> m.IrOther?
  {
    match m
    case IrNone => Some(Hfi.IntraRefreshNone)
    case IrAdaptive => Some(Hfi.IntraRefreshAdaptive)
    case IrCyclic => Some(Hfi.IntraRefreshCyclic)
    case IrCyclicAdaptive => Some(Hfi.IntraRefreshCyclicAdaptive)
    case IrRandom => Some(Hfi.IntraRefreshRandom)
    case IrOther(_) => None
  }

  function MultiSliceCode(m: HalMultiSlice): (r: Option<u32>)
    ensures r.None? <==> m.SliceOther?
  {
    match m
    case SliceOff => Some(Hfi.MultiSliceOff)
    case SliceGob => Some(Hfi.MultiSliceGob)
    case SliceByMbCount => Some(Hfi.MultiSliceByMbCount)
    case SliceByByteCount => Some(Hfi.MultiSliceByByteCount)
    case SliceOther(_) => None
  }

  /** The word `f` holding `code`, or nothing when the code is invalid. */
  function Optional(f: Field, code: Option<u32>): (m: map<Field, u32>)
    ensures f in m <==> code.Some?
    ensures m.Keys <= {f}
  {
    if code.Some? then map[f := code.value] else map[]
  }

  // Block copies of the `memcpy` cases, one word per element.

  function CopiedWords(s: seq<u32>): map<Field, u32>
  {
    map k | 0 <= k < |s| :: Member(Copied(k)) := s[k]
  }

  function CscWords(matrix: seq<u32>, bias: seq<u32>, limit: seq<u32>): map<Field, u32>
  {
    (map k | 0 <= k < |matrix| :: Member(CscMatrix(k)) := matrix[k])
    + (map k | 0 <= k < |bias| :: Member(CscBias(k)) := bias[k])
    + (map k | 0 <= k < |limit| :: Member(CscLimit(k)) := limit[k])
  }

  // QP ranges are packed as 0xiippbb, the same value in each of the three bytes.

  /** The largest QP that can be packed into one byte. */
  const MaxPackedQp := 0xff

  /** `qp | qp << 8 | qp << 16` for a QP that fits in a byte: the QP in each of the low three bytes. */
  function PackQp(qp: u32): (r: u32)
    requires qp <= MaxPackedQp
    ensures r % 0x100 == qp && (r / 0x100) % 0x100 == qp && (r / 0x10000) % 0x100 == qp
    ensures r / 0x1000000 == 0
  {
    ByteLanes(qp);
    qp * 0x10101
  }

  /** A byte times 0x10101 holds the byte in each of its three low bytes. */
  lemma ByteLanes(q: int)
    requires 0 <= q <= 0xff
    ensures var r := q * 0x10101;
      r % 0x100 == q && (r / 0x100) % 0x100 == q && (r / 0x10000) % 0x100 == q && r / 0x1000000 == 0
  {
    var r := q * 0x10101;
    assert r == q + 0x100 * (q + 0x100 * q);
    assert r / 0x100 == q + 0x100 * q;
    assert r / 0x10000 == q;
  }

  /** The profile word: the translated profile read back as a 32-bit word, or HIGH when that word is 0. */
  function ProfileWord(profile: int): (r: u32)
    ensures r != 0 || Hfi.H264ProfileHigh == 0
  {
    var p := Mod32(Translate.ToHfiType(ParamProfileLevelCurrent, profile));
    if p == 0 then Hfi.H264ProfileHigh else p
  }

  /** The level word: the caller's level, or 1 when that is 0. */
  function LevelWord(level: u32): (r: u32)
    ensures r != 0
    ensures level != 0 ==> r == level
  {
    if level == 0 then 1 else level
  }

  /** The entropy words: the mode, and a CABAC model only when the translated mode equals the HAL CABAC flag. */
  function EntropyWords(entropyMode: int, cabacModel: int): map<Field, u32>
  {
    var mode := Mod32(Translate.ToHfiType(ParamVencH264EntropyControl, entropyMode));
    if mode == Hal.H264EntropyCabac then
      map[Member(EntropyMode) := mode,
          Member(CabacModel) := Mod32(Translate.ToHfiType(ParamVencH264EntropyCabacModel, cabacModel))]
    else map[Member(EntropyMode) := mode]
  }

  /** The words an effect stores: its tag word first, then its payload. */
  function Words(e: Effect): map<Field, u32>
  {
    (if e.tag.Some? then map[PropertyData(0) := e.tag.value] else map[]) + e.payload
  }

  /** A case that stores tag `tag` and `payload`, which occupies `size` bytes, and succeeds. */
  function Stored(tag: u32, payload: map<Field, u32>, size: nat): Effect
  {
    Effect(0, Some(tag), payload, 4 + size)
  }

  /** A case that rejects its input after storing tag `tag` and `payload`, without growing the packet. */
  function Rejected(tag: u32, payload: map<Field, u32>): Effect
  {
    Effect(-EINVAL, Some(tag), payload, 0)
  }

  /** The cases whose payload starts with a buffer type the firmware must know. */
  function BufferTypedEffect(tag: u32, hb: HalBuffer, before: map<Field, u32>, payload: map<Field, u32>,
                             size: nat): (e: Effect)
    ensures e.ret == -EINVAL <==> hb.BufOther?
  {
    var bt := Translate.ToHfiBuffer(hb);
    if bt == 0 then Rejected(tag, before)
    else Stored(tag, before + payload, size)
  }

  /** The effect of the frame-rate, format, frame-size, realtime and buffer-requirement cases. */
  function EncodeFormat(ptype: HalProperty, pdata: PropertyData): Effect
    requires Fits(ptype, pdata) && CaseOf(ptype) == FormatGroup
  {
    if ptype.ConfigFrameRate? then
      BufferTypedEffect(Hfi.PropConfigFrameRate, pdata.bufferType, map[],
          map[Member(BufferType) := Translate.ToHfiBuffer(pdata.bufferType),
              Member(Payload.FrameRate) := pdata.frameRate], Hfi.SizeofFrameRate)
    else if ptype.ParamUncompressedFormatSelect? then
      BufferTypedEffect(Hfi.PropParamUncompressedFormatSelect, pdata.bufferType, map[],
          map[Member(BufferType) := Translate.ToHfiBuffer(pdata.bufferType),
              Member(Format) := Mod32(Translate.ToHfiType(ParamUncompressedFormatSelect, pdata.format))],
          Hfi.SizeofUncompressedFormatSelect)
    else if ptype.ParamFrameSize? then
      BufferTypedEffect(Hfi.PropParamFrameSize, pdata.bufferType, map[],
          map[Member(BufferType) := Translate.ToHfiBuffer(pdata.bufferType),
              Member(Height) := pdata.height, Member(Width) := pdata.width], Hfi.SizeofFrameSize)
    else if ptype.ConfigRealtime? then Stored(Hfi.PropConfigRealtime, map[Member(Enable) := pdata.value], 4)
    else if ptype.ParamBufferCountActual? then
      BufferTypedEffect(Hfi.PropParamBufferCountActual, pdata.bufferType,
          map[Member(CountActual) := pdata.countActual],
          map[Member(Type) := Translate.ToHfiBuffer(pdata.bufferType)], Hfi.SizeofBufferCountActual)
    else if ptype.ParamBufferSizeActual? then
      BufferTypedEffect(Hfi.PropParamBufferSizeActual, pdata.bufferType,
          map[Member(Size) := pdata.size],
          map[Member(Type) := Translate.ToHfiBuffer(pdata.bufferType)], Hfi.SizeofBufferSizeActual)
    else if ptype.ParamBufferDisplayHoldCountActual? then
      BufferTypedEffect(Hfi.PropParamBufferDisplayHoldCountActual, pdata.bufferType,
          map[Member(Payload.HoldCount) := pdata.holdCount],
          map[Member(Type) := Translate.ToHfiBuffer(pdata.bufferType)], Hfi.SizeofBufferDisplayHoldCountActual)
    else NotSupported
  }

  /** The effect of the stream-format, decoder-output and multi-stream cases. */
  function EncodeDecoderOutput(ptype: HalProperty, pdata: PropertyData): Effect
    requires Fits(ptype, pdata) && CaseOf(ptype) == DecoderOutputGroup
  {
    if ptype.ParamNalStreamFormatSelect? then
      Stored(Hfi.PropParamNalStreamFormatSelect,
          map[Member(NalStreamFormatSelect) := Mod32(Translate.ToHfiType(ParamNalStreamFormatSelect, pdata.format))],
          Hfi.SizeofNalStreamFormatSelect)
    else if ptype.ParamVdecOutputOrder? then
      Stored(Hfi.PropParamVdecOutputOrder, Optional(PropertyData(1), OutputOrderCode(pdata.order)), 4)
    else if ptype.ParamVdecPictureTypeDecode? then
      Stored(Hfi.PropParamVdecPictureTypeDecode, map[Member(PictureType) := pdata.value], 4)
    else if ptype.ParamVdecOutput2KeepAspectRatio? then
      Stored(Hfi.PropParamVdecOutput2KeepAspectRatio, map[Member(Enable) := pdata.value], 4)
    else if ptype.ConfigVdecPostLoopDeblocker? then
      Stored(Hfi.PropConfigVdecPostLoopDeblocker, map[Member(Enable) := pdata.value], 4)
    else if ptype.ParamVdecMultiStream? then
      BufferTypedEffect(Hfi.PropParamVdecMultiStream, pdata.bufferType, map[],
          map[Member(BufferType) := Translate.ToHfiBuffer(pdata.bufferType), Member(Enable) := pdata.enable,
              Member(Width) := pdata.width, Member(Height) := pdata.height], Hfi.SizeofMultiStream)
    else if ptype.ParamVdecDisplayPictureBufferCount? then
      Stored(Hfi.PropParamVdecDisplayPictureBufferCount,
          map[Member(Count) := pdata.count, Member(Enable) := pdata.enable], Hfi.SizeofDisplayPictureBufferCount)
    else NotSupported
  }

  /** The effect of the DivX, decoder-mode, sequence-header and I-frame request cases. */
  function EncodeBitstream(ptype: HalProperty, pdata: PropertyData): Effect
    requires Fits(ptype, pdata) && CaseOf(ptype) == BitstreamGroup
  {
    if ptype.ParamDivxFormat? then
      Stored(Hfi.PropParamDivxFormat, Optional(PropertyData(1), DivxCode(pdata.divx)), 4)
    else if ptype.ConfigVdecMbErrorMapReporting? then
      Stored(Hfi.PropConfigVdecMbErrorMapReporting, map[Member(Enable) := pdata.value], 4)
    else if ptype.ParamVdecContinueDataTransfer? then
      Stored(Hfi.PropParamVdecContinueDataTransfer, map[Member(Enable) := pdata.value], 4)
    else if ptype.ParamVdecSyncFrameDecode? then
      Stored(Hfi.PropParamVdecThumbnailMode, map[Member(Enable) := pdata.value], 4)
    else if ptype.ParamVencSyncFrameSequenceHeader? then
      Stored(Hfi.PropConfigVencSyncFrameSequenceHeader, map[Member(Enable) := pdata.value], 4)
    else if ptype.ConfigVencRequestIframe? then Stored(Hfi.PropConfigVencRequestSyncFrame, map[], 0)
    else NotSupported
  }

  /** The effect of the bitrate, profile, entropy, rate-control, MPEG-4 and deblocking cases. */
  function EncodeRateControl(ptype: HalProperty, pdata: PropertyData): Effect
    requires Fits(ptype, pdata) && CaseOf(ptype) == RateControlGroup
  {
    if ptype.ConfigVencTargetBitrate? then
      Stored(Hfi.PropConfigVencTargetBitrate,
          map[Member(BitRate) := pdata.bitRate, Member(LayerId) := pdata.layerId], Hfi.SizeofBitrate)
    else if ptype.ConfigVencMaxBitrate? then
      Stored(Hfi.PropConfigVencMaxBitrate,
          map[Member(BitRate) := pdata.bitRate, Member(LayerId) := pdata.layerId], Hfi.SizeofBitrate)
    else if ptype.ParamProfileLevelCurrent? then
      Stored(Hfi.PropParamProfileLevelCurrent,
          map[Member(Level) := LevelWord(pdata.level), Member(Profile) := ProfileWord(pdata.profile)],
          Hfi.SizeofProfileLevel)
    else if ptype.ParamVencH264EntropyControl? then
      Stored(Hfi.PropParamVencH264EntropyControl, EntropyWords(pdata.entropyMode, pdata.cabacModel),
          Hfi.SizeofH264EntropyControl)
    else if ptype.ParamVencRateControl? then
      Stored(Hfi.PropParamVencRateControl, Optional(PropertyData(1), RateControlCode(pdata.rc)), 4)
    else if ptype.ParamVencMpeg4TimeResolution? then
      Stored(Hfi.PropParamVencMpeg4TimeResolution, map[Member(TimeIncrementResolution) := pdata.value], 4)
    else if ptype.ParamVencMpeg4HeaderExtension? then
      Stored(Hfi.PropParamVencMpeg4HeaderExtension, map[Member(HeaderExtension) := Mod32(pdata.addr)], 4)
    else if ptype.ParamVencH264DeblockControl? then
      Stored(Hfi.PropParamVencH264DeblockControl,
          Optional(Member(Mode), DeblockCode(pdata.dbMode))
            + map[Member(SliceAlphaOffset) := pdata.sliceAlphaOffset,
                  Member(SliceBetaOffset) := pdata.sliceBetaOffset], Hfi.SizeofH264DbControl)
    else NotSupported
  }

  /** The effect of the quantization, search-range and period cases. */
  function EncodeQuantization(ptype: HalProperty, pdata: PropertyData): Effect
    requires Fits(ptype, pdata) && CaseOf(ptype) == QuantizationGroup
  {
    if ptype.ParamVencSessionQp? then
      Stored(Hfi.PropParamVencSessionQp,
          map[Member(QpI) := pdata.qpi, Member(QpP) := pdata.qpp, Member(QpB) := pdata.qpb,
              Member(LayerId) := pdata.layerId], Hfi.SizeofQuantization)
    else if ptype.ParamVencSessionQpRange? then
      (if pdata.minQp > MaxPackedQp || pdata.maxQp > MaxPackedQp then
         Effect(-ERANGE, Some(Hfi.PropParamVencSessionQpRange), map[], 0)
       else
         Stored(Hfi.PropParamVencSessionQpRange,
           map[Member(MinQp) := PackQp(pdata.minQp), Member(MaxQp) := PackQp(pdata.maxQp),
               Member(LayerId) := pdata.layerId], Hfi.SizeofQuantizationRange))
    else if ptype.ParamVencSearchRange? then
      Stored(Hfi.PropParamVencVc1PerfCfg,
          map[Member(SearchRangeX(0)) := pdata.iX, Member(SearchRangeX(1)) := pdata.pX,
              Member(SearchRangeX(2)) := pdata.bX, Member(SearchRangeY(0)) := pdata.iY,
              Member(SearchRangeY(1)) := pdata.pY, Member(SearchRangeY(2)) := pdata.bY],
          Hfi.SizeofVc1ePerfCfg)
    else if ptype.ParamVencMaxNumBFrames? then
      Stored(Hfi.PropParamVencMaxNumBFrames, CopiedWords(pdata.words), Hfi.SizeofMaxNumBFrames)
    else if ptype.ConfigVencIntraPeriod? then
      Stored(Hfi.PropConfigVencIntraPeriod, CopiedWords(pdata.words), Hfi.SizeofIntraPeriod)
    else if ptype.ConfigVencIdrPeriod? then
      Stored(Hfi.PropConfigVencIdrPeriod, map[Member(IdrPeriod) := pdata.value], 4)
    else if ptype.ParamVdecConcealColor? then
      Stored(Hfi.PropParamVdecConcealColor, map[Member(ConcealColor) := pdata.value], 4)
    else NotSupported
  }

  /** VPE operations: an invalid rotation or flip is logged and left unwritten, and the result is -EINVAL, but the packet still grows. */
  function OperationsEffect(rotate: HalRotate, flip: HalFlip): Effect
  {
    var rotation := RotateCode(rotate);
    var flipCode := FlipCode(flip);
    var e := Stored(Hfi.PropConfigVpeOperations,
                    Optional(Member(Rotation), rotation) + Optional(Member(Flip), flipCode), Hfi.SizeofOperations);
    if rotation.None? || flipCode.None? then e.(ret := -EINVAL) else e
  }

  /**
   * Extradata: the tag word is the translated index (0 for an unknown kind);
   * an unknown kind leaves the id unwritten and gives -EINVAL, but the packet still grows.
   */
  function ExtradataEffect(index: HalExtradata, enable: u32): Effect
  {
    var id := Translate.ToHfiExtradataId(index);
    var e := Effect(0, Some(Mod32(Translate.ToHfiExtradataIndex(index))),
                    map[Member(Enable) := enable]
                    + (if id != 0 then map[Member(IndexExtraDataId) := Mod32(id)] else map[]),
                    4 + Hfi.SizeofIndexExtradataConfig);
    if id == 0 then e.(ret := -EINVAL) else e
  }

  /** Buffer allocation mode: an unknown buffer type, then an unknown mode, stops with -EINVAL after what was already stored. */
  function AllocModeEffect(hb: HalBuffer, mode: HalBufferMode): Effect
  {
    var bt := Translate.ToHfiBuffer(hb);
    var m := Translate.ToHfiBufMode(mode);
    if bt == 0 then Rejected(Hfi.PropParamBufferAllocMode, map[])
    else if m == 0 then Rejected(Hfi.PropParamBufferAllocMode, map[Member(Type) := bt])
    else Stored(Hfi.PropParamBufferAllocMode, map[Member(Type) := bt, Member(Mode) := m], Hfi.SizeofBufferAllocMode)
  }

  /** The effect of the VPE, refresh, slice, extradata and allocation cases. */
  function EncodePreprocessing(ptype: HalProperty, pdata: PropertyData): Effect
    requires Fits(ptype, pdata) && CaseOf(ptype) == PreprocessingGroup
  {
    if ptype.ConfigVpeOperations? then OperationsEffect(pdata.rotate, pdata.flip)
    else if ptype.ParamVencIntraRefresh? then
      Stored(Hfi.PropParamVencIntraRefresh,
          Optional(Member(Mode), IntraRefreshCode(pdata.irMode))
            + map[Member(AirMbs) := pdata.airMbs, Member(AirRef) := pdata.airRef, Member(CirMbs) := pdata.cirMbs],
          Hfi.SizeofIntraRefresh)
    else if ptype.ParamVencMultiSliceControl? then
      Stored(Hfi.PropParamVencMultiSliceControl,
          Optional(Member(MultiSlice), MultiSliceCode(pdata.multiSlice)) + map[Member(SliceSize) := pdata.sliceSize],
          Hfi.SizeofMultiSliceControl)
    else if ptype.ParamIndexExtradata? then ExtradataEffect(pdata.index, pdata.enable)
    else if ptype.ParamVencSliceDeliveryMode? then
      Stored(Hfi.PropParamVencSliceDeliveryMode, map[Member(Enable) := pdata.value], Hfi.SizeofEnable)
    else if ptype.ParamVencH264VuiTimingInfo? then
      Stored(Hfi.PropParamVencH264VuiTimingInfo,
          map[Member(Enable) := pdata.enable, Member(FixedFrameRate) := pdata.fixedFrameRate,
              Member(TimeScale) := pdata.timeScale], Hfi.SizeofH264VuiTimingInfo)
    else if ptype.ConfigVpeDeinterlace? then
      Stored(Hfi.PropConfigVpeDeinterlace, map[Member(Enable) := pdata.value], Hfi.SizeofEnable)
    else if ptype.ParamVencH264GenerateAudnal? then
      Stored(Hfi.PropParamVencH264GenerateAudnal, map[Member(Enable) := pdata.value], Hfi.SizeofEnable)
    else if ptype.ParamBufferAllocMode? then AllocModeEffect(pdata.bufferType, pdata.allocMode)
    else NotSupported
  }

  /** The effect of the frame-assembly, bitstream, threshold, buffer-layout and long-term reference cases. */
  function EncodeReference(ptype: HalProperty, pdata: PropertyData): Effect
    requires Fits(ptype, pdata) && CaseOf(ptype) == ReferenceGroup
  {
    if ptype.ParamVdecFrameAssembly? then
      Stored(Hfi.PropParamVdecFrameAssembly, map[Member(Enable) := pdata.value], Hfi.SizeofEnable)
    else if ptype.ParamVencH264VuiBitstreamRestrc? then
      Stored(Hfi.PropParamVencH264VuiBitstreamRestrc, map[Member(Enable) := pdata.value], Hfi.SizeofEnable)
    else if ptype.ParamVencPreserveTextQuality? then
      Stored(Hfi.PropParamVencPreserveTextQuality, map[Member(Enable) := pdata.value], Hfi.SizeofEnable)
    else if ptype.ParamVdecScsThreshold? then
      Stored(Hfi.PropParamVdecScsThreshold, map[Member(ThresholdValue) := pdata.value], Hfi.SizeofScsThreshold)
    else if ptype.ParamMvcBufferLayout? then
      Stored(Hfi.PropParamMvcBufferLayout,
          map[Member(LayoutType) := Translate.ToHfiLayout(pdata.layout),
              Member(BrightViewFirst) := pdata.brightViewFirst, Member(Ngap) := pdata.ngap],
          Hfi.SizeofMvcBufferLayout)
    else if ptype.ParamVencLtrmode? then
      Stored(Hfi.PropParamVencLtrmode,
          map[Member(LtrMode) := Translate.ToHfiLtrMode(pdata.ltrMode), Member(LtrCount) := pdata.count,
              Member(TrustMode) := pdata.trustMode], Hfi.SizeofLtrMode)
    else if ptype.ConfigVencUseltrframe? then
      Stored(Hfi.PropConfigVencUseltrframe,
          map[Member(Frames) := pdata.frames, Member(RefLtr) := pdata.refLtr,
              Member(UseConstrnt) := pdata.useConstraint], Hfi.SizeofLtrUse)
    else if ptype.ConfigVencMarkltrframe? then
      Stored(Hfi.PropConfigVencMarkltrframe, map[Member(MarkFrame) := pdata.value], Hfi.SizeofLtrMark)
    else NotSupported
  }

  /** The effect of the layer, timestamp, initial-QP, colour-conversion, resilience, performance and output cases. */
  function EncodeLayering(ptype: HalProperty, pdata: PropertyData): Effect
    requires Fits(ptype, pdata) && CaseOf(ptype) == LayeringGroup
  {
    if ptype.ParamVencHierPMaxEnhLayers? then
      Stored(Hfi.PropParamVencHierPMaxNumEnhLayer, map[PropertyData(1) := pdata.value], 4)
    else if ptype.ConfigVencHierPNumFrames? then
      Stored(Hfi.PropConfigVencHierPEnhLayer, map[PropertyData(1) := pdata.value], 4)
    else if ptype.ParamVencDisableRcTimestamp? then
      Stored(Hfi.PropParamVencDisableRcTimestamp, map[Member(Enable) := pdata.value], 4)
    else if ptype.ParamVencEnableInitialQp? then
      Stored(Hfi.PropParamVencInitialQp,
          map[Member(InitQpEnable) := pdata.initQpEnable, Member(QpI) := pdata.qpi,
              Member(QpP) := pdata.qpp, Member(QpB) := pdata.qpb], Hfi.SizeofInitialQuantization)
    else if ptype.ParamVpeColorSpaceConversion? then
      Stored(Hfi.PropParamVpeColorSpaceConversion, CscWords(pdata.matrix, pdata.bias, pdata.limit),
          Hfi.SizeofVpeColorSpaceConversion)
    else if ptype.ParamVencVpxErrorResilienceMode? then
      Stored(Hfi.PropParamVencVpxErrorResilienceMode, map[Member(Enable) := pdata.value], Hfi.SizeofEnable)
    else if ptype.ParamVencH264NalSvcExt? then
      Stored(Hfi.PropParamVencH264NalSvcExt, map[Member(Enable) := pdata.value], Hfi.SizeofEnable)
    else if ptype.ConfigVencPerfMode? then
      Stored(Hfi.PropConfigVencPerfMode, map[PropertyData(1) := pdata.value], 4)
    else if ptype.ParamVencHierBMaxEnhLayers? then
      Stored(Hfi.PropParamVencHierBMaxNumEnhLayer, map[PropertyData(1) := pdata.value], 4)
    else if ptype.ParamVdecNonSecureOutput2? then
      Stored(Hfi.PropParamVdecNoncpOutput2, map[Member(Enable) := pdata.value], Hfi.SizeofEnable)
    else if ptype.ParamVencHierPHybridMode? then
      Stored(Hfi.PropParamVencHierPHybridMode, map[PropertyData(1) := pdata.value], Hfi.SizeofHybridHierp)
    else NotSupported
  }

  /**
   * The effect of a property the switch refuses: not implemented yet, or its
   * `default:`. It is also the value each group falls back to, which no
   * property of the group reaches.
   */
  const NotSupported := Effect(-ENOTSUPP, None, map[], 0)

  /** The effect of the case for `ptype` reading `pdata`. */
  function Encode(ptype: HalProperty, pdata: PropertyData): (e: Effect)
    requires Fits(ptype, pdata)
  {
    match CaseOf(ptype)
    case Ignored => Effect(0, None, map[], 0)
    case FormatGroup => EncodeFormat(ptype, pdata)
    case DecoderOutputGroup => EncodeDecoderOutput(ptype, pdata)
    case BitstreamGroup => EncodeBitstream(ptype, pdata)
    case RateControlGroup => EncodeRateControl(ptype, pdata)
    case QuantizationGroup => EncodeQuantization(ptype, pdata)
    case PreprocessingGroup => EncodePreprocessing(ptype, pdata)
    case ReferenceGroup => EncodeReference(ptype, pdata)
    case LayeringGroup => EncodeLayering(ptype, pdata)
    case NotImplementedYet | Default => NotSupported
  }

  /** What `pkt_session_set_property` leaves in a packet that held `before`. */
  function SetProperty(before: PacketView, session: Ptr, ptype: HalProperty, pdata: PropertyData): Encoded
    requires Fits(ptype, pdata)
  {
    if session == NULL then Encoded(-EINVAL, before)
    else Applied(before, session, Encode(ptype, pdata))
  }

  /** The header of a set-property packet for `session`, followed by what case effect `e` writes. */
  function Applied(before: PacketView, session: Ptr, e: Effect): Encoded
  {
    Encoded(e.ret, PacketView(Mod32(Hfi.SizeofSessionSetPropertyPkt + e.grow),
      before.words[PacketType := Hfi.CmdSessionSetProperty][SessionId := Hash32Ptr(session)]
                  [NumProperties := 1] + Words(e)))
  }

  /** The writes of `pkt_session_set_property` for a session: the header, then what case effect `e` writes. */
  method WriteSetProperty(pkt: Packet, session: Ptr, e: Effect) returns (ret: int)
    requires session != NULL
    modifies pkt
    ensures Encoded(ret, pkt.View()) == Applied(old(pkt.View()), session, e)
  {
    pkt.size := Hfi.SizeofSessionSetPropertyPkt;
    pkt.words := pkt.words[PacketType := Hfi.CmdSessionSetProperty];
    pkt.words := pkt.words[SessionId := Hash32Ptr(session)];
    pkt.words := pkt.words[NumProperties := 1];
    pkt.words := pkt.words + Words(e);
    pkt.size := Mod32(pkt.size + e.grow);
    return e.ret;
  }

  /** `pkt_session_set_property`. */
  method PktSessionSetProperty(pkt: Packet, session: Ptr, ptype: HalProperty, pdata: PropertyData)
    returns (ret: int)
    requires Fits(ptype, pdata)
    modifies pkt
    ensures Encoded(ret, pkt.View()) == SetProperty(old(pkt.View()), session, ptype, pdata)
  {
    if session == NULL {
      return -EINVAL;
    }
    ret := WriteSetProperty(pkt, session, Encode(ptype, pdata));
  }
}

/**
 * The driver (HAL) side of the packetizer's inputs: the enumerations it
 * switches on, the structures it reads, and the HAL bit-flag values that the
 * flag-indexed lookup tables are keyed by. Every enumeration the packetizer
 * switches on carries one extra constructor holding any value outside the
 * listed ones, so that the `default:` branches are reachable.
 */
module Hal {
  import opened Base

  /** A kernel pointer; 0 is NULL. */
  type Ptr = u64
  const NULL: Ptr := 0

  /**
   * `hash32_ptr`, which folds a pointer into the 32-bit handle the firmware
   * sees. Its definition is not part of this model: it is some fixed function.
   */
  const Hash32Ptr: Ptr -> u32

  datatype HalBuffer =
    | BufInput | BufOutput | BufOutput2
    | BufExtradataInput | BufExtradataOutput | BufExtradataOutput2
    | BufInternalScratch | BufInternalScratch1 | BufInternalScratch2
    | BufInternalPersist | BufInternalPersist1
    | BufOther(raw: int)

  datatype HalCodec =
    | CodecMvc | CodecH264 | CodecH263 | CodecMpeg1 | CodecMpeg2 | CodecMpeg4
    | CodecDivx311 | CodecDivx | CodecVc1 | CodecSpark | CodecVp8 | CodecHevc
    | CodecHevcHybrid
    | CodecOther(raw: int)

  datatype HalExtradata =
    | ExtraMbQuantization | ExtraInterlaceVideo | ExtraVc1Framedisp | ExtraVc1Seqdisp
    | ExtraTimestamp | ExtraS3dFramePacking | ExtraFrameRate | ExtraPanscanWindow
    | ExtraRecoveryPointSei | ExtraMultisliceInfo | ExtraNumConcealedMb
    | ExtraAspectRatio | ExtraInputCrop | ExtraDigitalZoom
    | ExtraMpeg2Seqdisp | ExtraStreamUserdata | ExtraFrameQp | ExtraFrameBitsInfo
    | ExtraLtrInfo | ExtraMetadataMbi
    | ExtraOther(raw: int)

  datatype HalBufferMode = ModeStatic | ModeRing | ModeDynamic | ModeOther(raw: int)
  datatype HalLtrMode = LtrDisable | LtrManual | LtrPeriodic | LtrOther(raw: int)
  datatype HalBufferLayout = LayoutTopBottom | LayoutSeq | LayoutOther(raw: int)
  datatype HalFlush = FlushInput | FlushOutput | FlushOutput2 | FlushAll | FlushOther(raw: int)
  datatype HalSsrTrigger = SsrErrFatal | SsrSwDivByZero | SsrHwWdogIrq | SsrOther(raw: int)
  datatype HalResourceId = ResourceOcmem | ResourceVmem | ResourceOther(raw: int)
  datatype HalOutputOrder = OrderDecode | OrderDisplay | OrderOther(raw: int)
  datatype HalDivxFormat = Divx4 | Divx5 | Divx6 | DivxOther(raw: int)
  datatype HalRateControl = RcOff | RcCbrCfr | RcCbrVfr | RcVbrCfr | RcVbrVfr | RcOther(raw: int)
  datatype HalDeblockMode = DbDisable | DbSkipSliceBoundary | DbAllBoundary | DbOther(raw: int)
  datatype HalRotate = RotateNone | Rotate90 | Rotate180 | Rotate270 | RotateOther(raw: int)
  datatype HalFlip = FlipNone | FlipHorizontal | FlipVertical | FlipOther(raw: int)
  datatype HalIntraRefresh =
    IrNone | IrAdaptive | IrCyclic | IrCyclicAdaptive | IrRandom | IrOther(raw: int)
  datatype HalMultiSlice =
    SliceOff | SliceGob | SliceByMbCount | SliceByByteCount | SliceOther(raw: int)

  /** The HAL property identifiers the packetizer distinguishes. */
  datatype HalProperty =
    // Properties `pkt_session_set_property` encodes.
    | ConfigFrameRate | ParamUncompressedFormatSelect
    | ParamUncompressedPlaneActualConstraintsInfo | ParamUncompressedPlaneActualInfo
    | ParamExtraDataHeaderConfig | ParamFrameSize | ConfigRealtime
    | ParamBufferCountActual | ParamBufferSizeActual | ParamBufferDisplayHoldCountActual
    | ParamNalStreamFormatSelect | ParamVdecOutputOrder | ParamVdecPictureTypeDecode
    | ParamVdecOutput2KeepAspectRatio | ConfigVdecPostLoopDeblocker | ParamVdecMultiStream
    | ParamVdecDisplayPictureBufferCount | ParamDivxFormat | ConfigVdecMbErrorMapReporting
    | ParamVdecContinueDataTransfer | ParamVdecSyncFrameDecode
    | ParamVencSyncFrameSequenceHeader | ConfigVencRequestIframe
    | ParamVencMpeg4ShortHeader | ParamVencMpeg4AcPrediction
    | ConfigVencTargetBitrate | ConfigVencMaxBitrate | ParamProfileLevelCurrent
    | ParamVencH264EntropyControl | ParamVencRateControl | ParamVencMpeg4TimeResolution
    | ParamVencMpeg4HeaderExtension | ParamVencH264DeblockControl | ParamVencSessionQp
    | ParamVencSessionQpRange | ParamVencSearchRange | ParamVencMaxNumBFrames
    | ConfigVencIntraPeriod | ConfigVencIdrPeriod | ParamVdecConcealColor
    | ConfigVpeOperations | ParamVencIntraRefresh | ParamVencMultiSliceControl
    | ParamIndexExtradata | ParamVencSliceDeliveryMode | ParamVencH264VuiTimingInfo
    | ConfigVpeDeinterlace | ParamVencH264GenerateAudnal | ParamBufferAllocMode
    | ParamVdecFrameAssembly | ParamVencH264VuiBitstreamRestrc
    | ParamVencPreserveTextQuality | ParamVdecScsThreshold | ParamMvcBufferLayout
    | ParamVencLtrmode | ConfigVencUseltrframe | ConfigVencMarkltrframe
    | ParamVencHierPMaxEnhLayers | ConfigVencHierPNumFrames | ParamVencDisableRcTimestamp
    | ParamVencEnableInitialQp | ParamVpeColorSpaceConversion
    | ParamVencVpxErrorResilienceMode | ParamVencH264NalSvcExt | ConfigVencPerfMode
    | ParamVencHierBMaxEnhLayers | ParamVdecNonSecureOutput2 | ParamVencHierPHybridMode
    // Properties listed as not implemented by the firmware core.
    | ConfigBufferRequirements | ConfigPriority | ConfigBatchInfo | ParamMetadataPassThrough
    | SysIdleIndicator | ParamUncompressedFormatSupported | ParamInterlaceFormatSupported
    | ParamChromaSite | ParamPropertiesSupported | ParamProfileLevelSupported
    | ParamCapabilitySupported | ParamNalStreamFormatSupported | ParamMultiViewFormat
    | ParamMaxSequenceHeaderSize | ParamCodecSupported | ParamVdecMultiViewSelect
    | ParamVdecMbQuantization | ParamVdecNumConcealedMb | ParamVdecH264EntropySwitching
    | ParamVencMpeg4DataPartitioning | ConfigBufferCountActual | ConfigVdecMultiStream
    | ParamVencMultiSliceInfo | ConfigVencTimestampScale | ParamVencLowLatency
    // Properties only the getter or the flag translator names.
    | ParamGetBufferRequirements | ParamVencH264EntropyCabacModel
    | PropertyOther(raw: int)

  /** `struct vidc_buffer_addr_info`. */
  datatype BufferAddrInfo = BufferAddrInfo(
    bufferType: HalBuffer, bufferSize: u32, numBuffers: u32,
    deviceAddr: u32, extradataAddr: u32, extradataSize: u32, responseRequired: u32)

  /** `struct vidc_frame_data`. */
  datatype FrameData = FrameData(
    bufferType: HalBuffer, deviceAddr: u32, extradataAddr: u32, timestamp: i64,
    flags: u32, offset: u32, allocLen: u32, filledLen: u32,
    markTarget: u32, markData: u32, clntData: u32, extradataSize: u32)

  /** `struct vidc_seq_hdr`; `seqHdr` is the buffer's device address (0 when absent). */
  datatype SeqHdr = SeqHdr(seqHdr: u32, seqHdrLen: u32)

  /** `struct vidc_resource_hdr`. */
  datatype ResourceHdr = ResourceHdr(resourceId: HalResourceId, resourceHandle: Ptr, size: int)

  /**
   * What `pdata` of `pkt_session_set_property` points to: one constructor per
   * structure shape the property cases read.
   */
  datatype PropertyData =
    | NoData
    | Word(value: u32)
    | PointerValue(addr: Ptr)
    | FrameRate(bufferType: HalBuffer, frameRate: u32)
    | UncompressedFormat(bufferType: HalBuffer, format: int)
    | FrameSize(bufferType: HalBuffer, width: u32, height: u32)
    | BufferCount(bufferType: HalBuffer, countActual: u32)
    | BufferSize(bufferType: HalBuffer, size: u32)
    | HoldCount(bufferType: HalBuffer, holdCount: u32)
    | NalFormat(format: int)
    | OutputOrder(order: HalOutputOrder)
    | MultiStream(bufferType: HalBuffer, enable: u32, width: u32, height: u32)
    | DisplayPictureBufferCount(count: u32, enable: u32)
    | DivxFormat(divx: HalDivxFormat)
    | Bitrate(bitRate: u32, layerId: u32)
    | ProfileLevel(profile: int, level: u32)
    | EntropyControl(entropyMode: int, cabacModel: int)
    | RateControl(rc: HalRateControl)
    | DeblockControl(dbMode: HalDeblockMode, sliceAlphaOffset: u32, sliceBetaOffset: u32)
    | Quantization(qpi: u32, qpp: u32, qpb: u32, layerId: u32)
    | QuantizationRange(minQp: u32, maxQp: u32, layerId: u32)
    | SearchRange(iX: u32, iY: u32, pX: u32, pY: u32, bX: u32, bY: u32)
    | StructCopy(words: seq<u32>)
    | Operations(rotate: HalRotate, flip: HalFlip)
    | IntraRefresh(irMode: HalIntraRefresh, airMbs: u32, airRef: u32, cirMbs: u32)
    | MultiSliceControl(multiSlice: HalMultiSlice, sliceSize: u32)
    | ExtradataEnable(index: HalExtradata, enable: u32)
    | VuiTiming(enable: u32, fixedFrameRate: u32, timeScale: u32)
    | AllocMode(bufferType: HalBuffer, allocMode: HalBufferMode)
    | MvcLayout(layout: HalBufferLayout, brightViewFirst: u32, ngap: u32)
    | LtrModeSetting(ltrMode: HalLtrMode, count: u32, trustMode: u32)
    | LtrUse(frames: u32, refLtr: u32, useConstraint: u32)
    | InitialQp(initQpEnable: u32, qpi: u32, qpp: u32, qpb: u32)
    | ColorSpaceConversion(matrix: seq<u32>, bias: seq<u32>, limit: seq<u32>)

  // HAL bit flags keying the lookup tables (each a distinct power of two in the HAL header).
  const H264ProfileBaseline: Flag
  const H264ProfileMain: Flag
  const H264ProfileHigh: Flag
  const H264ProfileConstrainedBase: Flag
  const H264ProfileConstrainedHigh: Flag
  const VpxProfileVersion1: Flag
  const MvcProfileStereoHigh: Flag
  const H264EntropyCavlc: Flag
  const H264EntropyCabac: Flag
  const H264CabacModel0: Flag
  const H264CabacModel1: Flag
  const H264CabacModel2: Flag
  const ColorFormatMonochrome: Flag
  const ColorFormatNv12: Flag
  const ColorFormatNv21: Flag
  const ColorFormatNv12Tile4x4: Flag
  const ColorFormatNv21Tile4x4: Flag
  const ColorFormatYuyv: Flag
  const ColorFormatYvyu: Flag
  const ColorFormatUyvy: Flag
  const ColorFormatVyuy: Flag
  const ColorFormatRgb565: Flag
  const ColorFormatBgr565: Flag
  const ColorFormatRgb888: Flag
  const ColorFormatBgr888: Flag
  const ColorFormatNv12Ubwc: Flag
  const ColorFormatNv12Tp10Ubwc: Flag
  const NalFormatStartcodes: Flag
  const NalFormatOneNalPerBuffer: Flag
  const NalFormatOneByteLength: Flag
  const NalFormatTwoByteLength: Flag
  const NalFormatFourByteLength: Flag
}

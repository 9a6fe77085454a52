/**
 * The firmware side of the Host-Firmware Interface (HFI): command codes,
 * property tags, enumeration codes and structure sizes. Their numeric values
 * live in the firmware interface header, which is not part of this model, so
 * each is an abstract constant. Where the packetizer tests a translated code
 * against 0 to detect "unknown", the constant is typed `NonZeroU32`.
 */
module Hfi {
  import opened Base

  // Packet types.
  const CmdSysInit: u32
  const CmdSysPcPrep: u32
  const CmdSysSetProperty: u32
  const CmdSysSetResource: u32
  const CmdSysReleaseResource: u32
  const CmdSysPing: u32
  const CmdSysSessionInit: u32
  const CmdSysTestSsr: u32
  const CmdSysGetProperty: u32
  const CmdSessionSetBuffers: u32
  const CmdSessionReleaseBuffers: u32
  const CmdSessionEmptyBuffer: u32
  const CmdSessionFillBuffer: u32
  const CmdSessionParseSequenceHeader: u32
  const CmdSessionGetSequenceHeader: u32
  const CmdSessionFlush: u32
  const CmdSessionGetProperty: u32
  const CmdSessionSetProperty: u32

  // System properties and their values.
  const PropSysIdleIndicator: u32
  const PropSysDebugConfig: u32
  const PropSysConfigCoverage: u32
  const PropSysCodecPowerPlaneCtrl: u32
  const PropSysImageVersion: u32
  const DebugModeQueue: u32
  const DebugModeQdss: u32
  const ResourceOcmem: u32

  // Codecs.
  const CodecH264: NonZeroU32
  const CodecH263: NonZeroU32
  const CodecMpeg1: NonZeroU32
  const CodecMpeg2: NonZeroU32
  const CodecMpeg4: NonZeroU32
  const CodecDivx311: NonZeroU32
  const CodecDivx: NonZeroU32
  const CodecVc1: NonZeroU32
  const CodecSpark: NonZeroU32
  const CodecVp8: NonZeroU32
  const CodecHevc: NonZeroU32
  const CodecHevcHybrid: NonZeroU32

  // Buffer roles.
  const BufferInput: NonZeroU32
  const BufferOutput: NonZeroU32
  const BufferOutput2: NonZeroU32
  const BufferExtradataInput: NonZeroU32
  const BufferExtradataOutput: NonZeroU32
  const BufferExtradataOutput2: NonZeroU32
  const BufferInternalScratch: NonZeroU32
  const BufferInternalScratch1: NonZeroU32
  const BufferInternalScratch2: NonZeroU32
  const BufferInternalPersist: NonZeroU32
  const BufferInternalPersist1: NonZeroU32

  // Extradata properties (the tag of an INDEX_EXTRADATA property).
  const PropVdecMbQuantization: NonZeroU32
  const PropVdecInterlaceVideoExtradata: NonZeroU32
  const PropVdecVc1FramedispExtradata: NonZeroU32
  const PropVdecVc1SeqdispExtradata: NonZeroU32
  const PropVdecTimestampExtradata: NonZeroU32
  const PropS3dFramePackingExtradata: NonZeroU32
  const PropVdecFrameRateExtradata: NonZeroU32
  const PropVdecPanscanWndwExtradata: NonZeroU32
  const PropVdecRecoveryPointSeiExtradata: NonZeroU32
  const PropVencMultiSliceInfo: NonZeroU32
  const PropVdecNumConcealedMb: NonZeroU32
  const PropIndexExtradata: NonZeroU32
  const PropVdecMpeg2SeqdispExtradata: NonZeroU32
  const PropVdecStreamUserdataExtradata: NonZeroU32
  const PropVdecFrameQpExtradata: NonZeroU32
  const PropVdecFrameBitsInfoExtradata: NonZeroU32
  const PropVencLtrInfo: NonZeroU32
  const PropVencMbiDumping: NonZeroU32
  // Extradata identifiers of the video core driver.
  const ExtradataAspectRatio: NonZeroU32
  const ExtradataInputCrop: NonZeroU32
  const ExtradataDigitalZoom: NonZeroU32

  // Buffer allocation modes, LTR modes, MVC layouts, flush kinds, SSR triggers.
  const BufferModeStatic: NonZeroU32
  const BufferModeRing: NonZeroU32
  const BufferModeDynamic: NonZeroU32
  const LtrModeDisable: u32
  const LtrModeManual: u32
  const LtrModePeriodic: u32
  const MvcBufferLayoutTopBottom: u32
  const MvcBufferLayoutSeq: u32
  const FlushInput: u32
  const FlushOutput: u32
  const FlushOutput2: u32
  const FlushAll: u32
  const TestSsrSwErrFatal: u32
  const TestSsrSwDivByZero: u32
  const TestSsrHwWdogIrq: u32

  // Session property tags.
  const PropConfigFrameRate: u32
  const PropParamUncompressedFormatSelect: u32
  const PropParamFrameSize: u32
  const PropConfigRealtime: u32
  const PropParamBufferCountActual: u32
  const PropParamBufferSizeActual: u32
  const PropParamBufferDisplayHoldCountActual: u32
  const PropParamNalStreamFormatSelect: u32
  const PropParamVdecOutputOrder: u32
  const PropParamVdecPictureTypeDecode: u32
  const PropParamVdecOutput2KeepAspectRatio: u32
  const PropConfigVdecPostLoopDeblocker: u32
  const PropParamVdecMultiStream: u32
  const PropParamVdecDisplayPictureBufferCount: u32
  const PropParamDivxFormat: u32
  const PropConfigVdecMbErrorMapReporting: u32
  const PropParamVdecContinueDataTransfer: u32
  const PropParamVdecThumbnailMode: u32
  const PropConfigVencSyncFrameSequenceHeader: u32
  const PropConfigVencRequestSyncFrame: u32
  const PropConfigVencTargetBitrate: u32
  const PropConfigVencMaxBitrate: u32
  const PropParamProfileLevelCurrent: u32
  const PropParamVencH264EntropyControl: u32
  const PropParamVencRateControl: u32
  const PropParamVencMpeg4TimeResolution: u32
  const PropParamVencMpeg4HeaderExtension: u32
  const PropParamVencH264DeblockControl: u32
  const PropParamVencSessionQp: u32
  const PropParamVencSessionQpRange: u32
  const PropParamVencVc1PerfCfg: u32
  const PropParamVencMaxNumBFrames: u32
  const PropConfigVencIntraPeriod: u32
  const PropConfigVencIdrPeriod: u32
  const PropParamVdecConcealColor: u32
  const PropConfigVpeOperations: u32
  const PropParamVencIntraRefresh: u32
  const PropParamVencMultiSliceControl: u32
  const PropParamVencSliceDeliveryMode: u32
  const PropParamVencH264VuiTimingInfo: u32
  const PropConfigVpeDeinterlace: u32
  const PropParamVencH264GenerateAudnal: u32
  const PropParamBufferAllocMode: u32
  const PropParamVdecFrameAssembly: u32
  const PropParamVencH264VuiBitstreamRestrc: u32
  const PropParamVencPreserveTextQuality: u32
  const PropParamVdecScsThreshold: u32
  const PropParamMvcBufferLayout: u32
  const PropParamVencLtrmode: u32
  const PropConfigVencUseltrframe: u32
  const PropConfigVencMarkltrframe: u32
  const PropParamVencHierPMaxNumEnhLayer: u32
  const PropConfigVencHierPEnhLayer: u32
  const PropParamVencDisableRcTimestamp: u32
  const PropParamVencInitialQp: u32
  const PropParamVpeColorSpaceConversion: u32
  const PropParamVencVpxErrorResilienceMode: u32
  const PropParamVencH264NalSvcExt: u32
  const PropConfigVencPerfMode: u32
  const PropParamVencHierBMaxNumEnhLayer: u32
  const PropParamVdecNoncpOutput2: u32
  const PropParamVencHierPHybridMode: u32
  const PropConfigBufferRequirements: u32

  // Values of the enumerated session properties.
  const OutputOrderDecode: u32
  const OutputOrderDisplay: u32
  const DivxFormat4: u32
  const DivxFormat5: u32
  const DivxFormat6: u32
  const RateControlOff: u32
  const RateControlCbrCfr: u32
  const RateControlCbrVfr: u32
  const RateControlVbrCfr: u32
  const RateControlVbrVfr: u32
  const H264DbModeDisable: u32
  const H264DbModeSkipSliceBoundary: u32
  const H264DbModeAllBoundary: u32
  const Rotate0: u32
  const Rotate90: u32
  const Rotate180: u32
  const Rotate270: u32
  const FlipNone: u32
  const FlipHorizontal: u32
  const FlipVertical: u32
  const IntraRefreshNone: u32
  const IntraRefreshAdaptive: u32
  const IntraRefreshCyclic: u32
  const IntraRefreshCyclicAdaptive: u32
  const IntraRefreshRandom: u32
  const MultiSliceOff: u32
  const MultiSliceGob: u32
  const MultiSliceByMbCount: u32
  const MultiSliceByByteCount: u32

  // Codes held by the flag-indexed lookup tables.
  const H264ProfileBaseline: u32
  const H264ProfileMain: u32
  const H264ProfileHigh: u32
  const H264ProfileConstrainedBase: u32
  const H264ProfileConstrainedHigh: u32
  const VpxProfileVersion1: u32
  const H264ProfileStereoHigh: u32
  const H264EntropyCavlc: u32
  const H264EntropyCabac: u32
  const H264CabacModel0: u32
  const H264CabacModel1: u32
  const H264CabacModel2: u32
  const ColorFormatMonochrome: u32
  const ColorFormatNv12: u32
  const ColorFormatNv21: u32
  const ColorFormatNv12Tile4x4: u32
  const ColorFormatNv21Tile4x4: u32
  const ColorFormatYuyv: u32
  const ColorFormatYvyu: u32
  const ColorFormatUyvy: u32
  const ColorFormatVyuy: u32
  const ColorFormatRgb565: u32
  const ColorFormatBgr565: u32
  const ColorFormatRgb888: u32
  const ColorFormatBgr888: u32
  const ColorFormatNv12Ubwc: u32
  const ColorFormatYuv420Tp10Ubwc: u32
  const NalFormatStartcodes: u32
  const NalFormatOneNalPerBuffer: u32
  const NalFormatOneByteLength: u32
  const NalFormatTwoByteLength: u32
  const NalFormatFourByteLength: u32

  // Packet structure sizes.
  const SizeofSysInitPkt: StructSize
  const SizeofSysPcPrepPkt: StructSize
  const SizeofSysSetPropertyPkt: StructSize
  const SizeofSysSetResourcePkt: StructSize
  const SizeofSysReleaseResourcePkt: StructSize
  const SizeofSysPingPkt: StructSize
  const SizeofSysTestSsrPkt: StructSize
  const SizeofSysGetPropertyPkt: StructSize
  const SizeofSessionInitPkt: StructSize
  const SizeofSessionCmdPkt: StructSize
  const SizeofSessionSetBuffersPkt: StructSize
  const SizeofEmptyBufferCompressedPkt: StructSize
  const SizeofEmptyBufferUncompressedPlane0Pkt: StructSize
  const SizeofFillBufferPkt: StructSize
  const SizeofParseSequenceHeaderPkt: StructSize
  const SizeofGetSequenceHeaderPkt: StructSize
  const SizeofFlushPkt: StructSize
  const SizeofSessionGetPropertyPkt: StructSize
  const SizeofSessionSetPropertyPkt: StructSize

  // Payload structure sizes.
  const SizeofEnable: StructSize
  const SizeofDebugConfig: StructSize
  const SizeofResourceOcmem: StructSize
  const SizeofBufferInfo: StructSize
  const SizeofFrameRate: StructSize
  const SizeofUncompressedFormatSelect: StructSize
  const SizeofFrameSize: StructSize
  const SizeofBufferCountActual: StructSize
  const SizeofBufferSizeActual: StructSize
  const SizeofBufferDisplayHoldCountActual: StructSize
  const SizeofNalStreamFormatSelect: StructSize
  const SizeofMultiStream: StructSize
  const SizeofDisplayPictureBufferCount: StructSize
  const SizeofBitrate: StructSize
  const SizeofProfileLevel: StructSize
  const SizeofH264EntropyControl: StructSize
  const SizeofH264DbControl: StructSize
  const SizeofQuantization: StructSize
  const SizeofQuantizationRange: StructSize
  const SizeofVc1ePerfCfg: StructSize
  const SizeofMaxNumBFrames: StructSize
  const SizeofIntraPeriod: StructSize
  const SizeofOperations: StructSize
  const SizeofIntraRefresh: StructSize
  const SizeofMultiSliceControl: StructSize
  const SizeofIndexExtradataConfig: StructSize
  const SizeofH264VuiTimingInfo: StructSize
  const SizeofBufferAllocMode: StructSize
  const SizeofScsThreshold: StructSize
  const SizeofMvcBufferLayout: StructSize
  const SizeofLtrMode: StructSize
  const SizeofLtrUse: StructSize
  const SizeofLtrMark: StructSize
  const SizeofInitialQuantization: StructSize
  const SizeofVpeColorSpaceConversion: StructSize
  const SizeofHybridHierp: StructSize

  // Element counts of the colour-space-conversion arrays.
  const CscMatrixCoeffs: nat
  const CscBiasCoeffs: nat
  const CscLimitCoeffs: nat
}

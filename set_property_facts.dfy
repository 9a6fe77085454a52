/**
 * What `pkt_session_set_property` guarantees across all its cases: the
 * firmware tag and payload size of each property, the exact inputs each
 * error code is returned for, and the value-level quirks of individual cases.
 */
module SetPropertyFacts {
  import opened Base
  import opened Hal
  import opened Packet
  import opened SetProperty
  import Hfi
  import Translate

  /** The firmware tag of a property's packet and the size of the structure after it. */
  datatype Layout = Layout(tag: u32, payload: nat)

  /**
   * The wire layout of every property `pkt_session_set_property` encodes with
   * a fixed tag (the extradata tag depends on the kind of extradata).
   */
  function WireLayout(ptype: HalProperty): Option<Layout>
  {
    match ptype
    case ConfigFrameRate => Some(Layout(Hfi.PropConfigFrameRate, Hfi.SizeofFrameRate))
    case ParamUncompressedFormatSelect =>
      Some(Layout(Hfi.PropParamUncompressedFormatSelect, Hfi.SizeofUncompressedFormatSelect))
    case ParamFrameSize => Some(Layout(Hfi.PropParamFrameSize, Hfi.SizeofFrameSize))
    case ConfigRealtime => Some(Layout(Hfi.PropConfigRealtime, 4))
    case ParamBufferCountActual => Some(Layout(Hfi.PropParamBufferCountActual, Hfi.SizeofBufferCountActual))
    case ParamBufferSizeActual => Some(Layout(Hfi.PropParamBufferSizeActual, Hfi.SizeofBufferSizeActual))
    case ParamBufferDisplayHoldCountActual =>
      Some(Layout(Hfi.PropParamBufferDisplayHoldCountActual, Hfi.SizeofBufferDisplayHoldCountActual))
    case ParamNalStreamFormatSelect =>
      Some(Layout(Hfi.PropParamNalStreamFormatSelect, Hfi.SizeofNalStreamFormatSelect))
    case ParamVdecOutputOrder => Some(Layout(Hfi.PropParamVdecOutputOrder, 4))
    case ParamVdecPictureTypeDecode => Some(Layout(Hfi.PropParamVdecPictureTypeDecode, 4))
    case ParamVdecOutput2KeepAspectRatio => Some(Layout(Hfi.PropParamVdecOutput2KeepAspectRatio, 4))
    case ConfigVdecPostLoopDeblocker => Some(Layout(Hfi.PropConfigVdecPostLoopDeblocker, 4))
    case ParamVdecMultiStream => Some(Layout(Hfi.PropParamVdecMultiStream, Hfi.SizeofMultiStream))
    case ParamVdecDisplayPictureBufferCount =>
      Some(Layout(Hfi.PropParamVdecDisplayPictureBufferCount, Hfi.SizeofDisplayPictureBufferCount))
    case ParamDivxFormat => Some(Layout(Hfi.PropParamDivxFormat, 4))
    case ConfigVdecMbErrorMapReporting => Some(Layout(Hfi.PropConfigVdecMbErrorMapReporting, 4))
    case ParamVdecContinueDataTransfer => Some(Layout(Hfi.PropParamVdecContinueDataTransfer, 4))
    case ParamVdecSyncFrameDecode => Some(Layout(Hfi.PropParamVdecThumbnailMode, 4))
    case ParamVencSyncFrameSequenceHeader => Some(Layout(Hfi.PropConfigVencSyncFrameSequenceHeader, 4))
    case ConfigVencRequestIframe => Some(Layout(Hfi.PropConfigVencRequestSyncFrame, 0))
    case ConfigVencTargetBitrate => Some(Layout(Hfi.PropConfigVencTargetBitrate, Hfi.SizeofBitrate))
    case ConfigVencMaxBitrate => Some(Layout(Hfi.PropConfigVencMaxBitrate, Hfi.SizeofBitrate))
    case ParamProfileLevelCurrent => Some(Layout(Hfi.PropParamProfileLevelCurrent, Hfi.SizeofProfileLevel))
    case ParamVencH264EntropyControl =>
      Some(Layout(Hfi.PropParamVencH264EntropyControl, Hfi.SizeofH264EntropyControl))
    case ParamVencRateControl => Some(Layout(Hfi.PropParamVencRateControl, 4))
    case ParamVencMpeg4TimeResolution => Some(Layout(Hfi.PropParamVencMpeg4TimeResolution, 4))
    case ParamVencMpeg4HeaderExtension => Some(Layout(Hfi.PropParamVencMpeg4HeaderExtension, 4))
    case ParamVencH264DeblockControl => Some(Layout(Hfi.PropParamVencH264DeblockControl, Hfi.SizeofH264DbControl))
    case ParamVencSessionQp => Some(Layout(Hfi.PropParamVencSessionQp, Hfi.SizeofQuantization))
    case ParamVencSessionQpRange => Some(Layout(Hfi.PropParamVencSessionQpRange, Hfi.SizeofQuantizationRange))
    case ParamVencSearchRange => Some(Layout(Hfi.PropParamVencVc1PerfCfg, Hfi.SizeofVc1ePerfCfg))
    case ParamVencMaxNumBFrames => Some(Layout(Hfi.PropParamVencMaxNumBFrames, Hfi.SizeofMaxNumBFrames))
    case ConfigVencIntraPeriod => Some(Layout(Hfi.PropConfigVencIntraPeriod, Hfi.SizeofIntraPeriod))
    case ConfigVencIdrPeriod => Some(Layout(Hfi.PropConfigVencIdrPeriod, 4))
    case ParamVdecConcealColor => Some(Layout(Hfi.PropParamVdecConcealColor, 4))
    case ConfigVpeOperations => Some(Layout(Hfi.PropConfigVpeOperations, Hfi.SizeofOperations))
    case ParamVencIntraRefresh => Some(Layout(Hfi.PropParamVencIntraRefresh, Hfi.SizeofIntraRefresh))
    case ParamVencMultiSliceControl => Some(Layout(Hfi.PropParamVencMultiSliceControl, Hfi.SizeofMultiSliceControl))
    case ParamVencSliceDeliveryMode => Some(Layout(Hfi.PropParamVencSliceDeliveryMode, Hfi.SizeofEnable))
    case ParamVencH264VuiTimingInfo => Some(Layout(Hfi.PropParamVencH264VuiTimingInfo, Hfi.SizeofH264VuiTimingInfo))
    case ConfigVpeDeinterlace => Some(Layout(Hfi.PropConfigVpeDeinterlace, Hfi.SizeofEnable))
    case ParamVencH264GenerateAudnal => Some(Layout(Hfi.PropParamVencH264GenerateAudnal, Hfi.SizeofEnable))
    case ParamBufferAllocMode => Some(Layout(Hfi.PropParamBufferAllocMode, Hfi.SizeofBufferAllocMode))
    case ParamVdecFrameAssembly => Some(Layout(Hfi.PropParamVdecFrameAssembly, Hfi.SizeofEnable))
    case ParamVencH264VuiBitstreamRestrc => Some(Layout(Hfi.PropParamVencH264VuiBitstreamRestrc, Hfi.SizeofEnable))
    case ParamVencPreserveTextQuality => Some(Layout(Hfi.PropParamVencPreserveTextQuality, Hfi.SizeofEnable))
    case ParamVdecScsThreshold => Some(Layout(Hfi.PropParamVdecScsThreshold, Hfi.SizeofScsThreshold))
    case ParamMvcBufferLayout => Some(Layout(Hfi.PropParamMvcBufferLayout, Hfi.SizeofMvcBufferLayout))
    case ParamVencLtrmode => Some(Layout(Hfi.PropParamVencLtrmode, Hfi.SizeofLtrMode))
    case ConfigVencUseltrframe => Some(Layout(Hfi.PropConfigVencUseltrframe, Hfi.SizeofLtrUse))
    case ConfigVencMarkltrframe => Some(Layout(Hfi.PropConfigVencMarkltrframe, Hfi.SizeofLtrMark))
    case ParamVencHierPMaxEnhLayers => Some(Layout(Hfi.PropParamVencHierPMaxNumEnhLayer, 4))
    case ConfigVencHierPNumFrames => Some(Layout(Hfi.PropConfigVencHierPEnhLayer, 4))
    case ParamVencDisableRcTimestamp => Some(Layout(Hfi.PropParamVencDisableRcTimestamp, 4))
    case ParamVencEnableInitialQp => Some(Layout(Hfi.PropParamVencInitialQp, Hfi.SizeofInitialQuantization))
    case ParamVpeColorSpaceConversion =>
      Some(Layout(Hfi.PropParamVpeColorSpaceConversion, Hfi.SizeofVpeColorSpaceConversion))
    case ParamVencVpxErrorResilienceMode => Some(Layout(Hfi.PropParamVencVpxErrorResilienceMode, Hfi.SizeofEnable))
    case ParamVencH264NalSvcExt => Some(Layout(Hfi.PropParamVencH264NalSvcExt, Hfi.SizeofEnable))
    case ConfigVencPerfMode => Some(Layout(Hfi.PropConfigVencPerfMode, 4))
    case ParamVencHierBMaxEnhLayers => Some(Layout(Hfi.PropParamVencHierBMaxNumEnhLayer, 4))
    case ParamVdecNonSecureOutput2 => Some(Layout(Hfi.PropParamVdecNoncpOutput2, Hfi.SizeofEnable))
    case ParamVencHierPHybridMode => Some(Layout(Hfi.PropParamVencHierPHybridMode, Hfi.SizeofHybridHierp))
    case _ => None
  }

  /** The properties one of the groups of cases encodes. */
  predicate Handled(ptype: HalProperty)
  {
    match CaseOf(ptype)
    case Ignored | NotImplementedYet | Default => false
    case _ => true
  }

  /** The properties that reach the `default:` of the switch: every property no case lists. */
  predicate Unhandled(ptype: HalProperty)
  {
    CaseOf(ptype) == Default
  }

  /** The cases whose payload starts with a buffer type. */
  predicate BufferTyped(ptype: HalProperty)
  {
    || ptype.ConfigFrameRate? || ptype.ParamUncompressedFormatSelect? || ptype.ParamFrameSize?
    || ptype.ParamBufferCountActual? || ptype.ParamBufferSizeActual?
    || ptype.ParamBufferDisplayHoldCountActual? || ptype.ParamVdecMultiStream?
  }

  /**
   * The inputs a property case rejects with -EINVAL: an unknown buffer type,
   * rotation, flip, extradata kind or allocation mode where its case
   * translates one.
   */
  predicate InvalidInput(ptype: HalProperty, pdata: PropertyData)
    requires Fits(ptype, pdata)
  {
    match CaseOf(ptype)
    case FormatGroup | DecoderOutputGroup => BufferTyped(ptype) && pdata.bufferType.BufOther?
    case PreprocessingGroup =>
      || (ptype.ConfigVpeOperations? && (pdata.rotate.RotateOther? || pdata.flip.FlipOther?))
      || (ptype.ParamIndexExtradata? && pdata.index.ExtraOther?)
      || (ptype.ParamBufferAllocMode? && (pdata.bufferType.BufOther? || pdata.allocMode.ModeOther?))
    case _ => false
  }

  /** The input the QP-range case rejects with -ERANGE: a bound that does not fit in a byte. */
  predicate QpOutOfRange(ptype: HalProperty, pdata: PropertyData)
    requires Fits(ptype, pdata)
  {
    ptype.ParamVencSessionQpRange? && (pdata.minQp > MaxPackedQp || pdata.maxQp > MaxPackedQp)
  }

  /** The result each case gives for each input. */
  predicate ResultContract(ptype: HalProperty, pdata: PropertyData, e: Effect)
    requires Fits(ptype, pdata)
  {
    && (e.ret == -ENOTSUPP <==> NotImplemented(ptype) || Unhandled(ptype))
    && (e.ret == -EINVAL <==> InvalidInput(ptype, pdata))
    && (e.ret == -ERANGE <==> QpOutOfRange(ptype, pdata))
    && (e.ret == 0 || e.ret == -EINVAL || e.ret == -ERANGE || e.ret == -ENOTSUPP)
  }

  /**
   * What each case stores: a tag exactly when one of the groups handles the
   * property, never a payload word over the tag, and a tag and a growth that
   * follow the property's wire layout.
   */
  predicate StorageContract(ptype: HalProperty, pdata: PropertyData, e: Effect)
    requires Fits(ptype, pdata)
  {
    && (e.tag.Some? <==> Handled(ptype))
    && (e.tag.None? ==> e.payload == map[] && e.grow == 0)
    && PropertyData(0) !in e.payload
    && (e.tag.Some? && !ptype.ParamIndexExtradata? ==>
          && WireLayout(ptype).Some?
          && e.tag.value == WireLayout(ptype).value.tag
          && (e.ret == 0 || ptype.ConfigVpeOperations? ==> e.grow == 4 + WireLayout(ptype).value.payload)
          && (e.ret != 0 && !ptype.ConfigVpeOperations? ==> e.grow == 0))
  }

  // For each group of cases, and for the arms that encode nothing: their
  // cases keep both contracts. Each lemma reasons about one arm only.

  lemma IgnoredResults(ptype: HalProperty, pdata: PropertyData)
    requires Fits(ptype, pdata) && CaseOf(ptype) == Ignored
    ensures ResultContract(ptype, pdata, Encode(ptype, pdata))
  {
  }

  lemma IgnoredStorage(ptype: HalProperty, pdata: PropertyData)
    requires Fits(ptype, pdata) && CaseOf(ptype) == Ignored
    ensures StorageContract(ptype, pdata, Encode(ptype, pdata))
  {
  }

  lemma NotImplementedResults(ptype: HalProperty, pdata: PropertyData)
    requires Fits(ptype, pdata) && CaseOf(ptype) == NotImplementedYet
    ensures ResultContract(ptype, pdata, NotSupported)
  {
  }

  lemma DefaultResults(ptype: HalProperty, pdata: PropertyData)
    requires Fits(ptype, pdata) && CaseOf(ptype) == Default
    ensures ResultContract(ptype, pdata, NotSupported)
  {
  }

  lemma NotImplementedStorage(ptype: HalProperty, pdata: PropertyData)
    requires Fits(ptype, pdata) && CaseOf(ptype) == NotImplementedYet
    ensures StorageContract(ptype, pdata, NotSupported)
  {
  }

  lemma DefaultStorage(ptype: HalProperty, pdata: PropertyData)
    requires Fits(ptype, pdata) && CaseOf(ptype) == Default
    ensures StorageContract(ptype, pdata, NotSupported)
  {
  }

  lemma FormatResults(ptype: HalProperty, pdata: PropertyData)
    requires Fits(ptype, pdata) && CaseOf(ptype) == FormatGroup
    ensures ResultContract(ptype, pdata, Encode(ptype, pdata))
  {
  }

  lemma FormatStorage(ptype: HalProperty, pdata: PropertyData)
    requires Fits(ptype, pdata) && CaseOf(ptype) == FormatGroup
    ensures StorageContract(ptype, pdata, Encode(ptype, pdata))
  {
  }

  lemma DecoderOutputResults(ptype: HalProperty, pdata: PropertyData)
    requires Fits(ptype, pdata) && CaseOf(ptype) == DecoderOutputGroup
    ensures ResultContract(ptype, pdata, Encode(ptype, pdata))
  {
  }

  lemma DecoderOutputStorage(ptype: HalProperty, pdata: PropertyData)
    requires Fits(ptype, pdata) && CaseOf(ptype) == DecoderOutputGroup
    ensures StorageContract(ptype, pdata, Encode(ptype, pdata))
  {
  }

  lemma BitstreamResults(ptype: HalProperty, pdata: PropertyData)
    requires Fits(ptype, pdata) && CaseOf(ptype) == BitstreamGroup
    ensures ResultContract(ptype, pdata, Encode(ptype, pdata))
  {
  }

  lemma BitstreamStorage(ptype: HalProperty, pdata: PropertyData)
    requires Fits(ptype, pdata) && CaseOf(ptype) == BitstreamGroup
    ensures StorageContract(ptype, pdata, Encode(ptype, pdata))
  {
  }

  lemma RateControlResults(ptype: HalProperty, pdata: PropertyData)
    requires Fits(ptype, pdata) && CaseOf(ptype) == RateControlGroup
    ensures ResultContract(ptype, pdata, Encode(ptype, pdata))
  {
  }

  lemma RateControlStorage(ptype: HalProperty, pdata: PropertyData)
    requires Fits(ptype, pdata) && CaseOf(ptype) == RateControlGroup
    ensures StorageContract(ptype, pdata, Encode(ptype, pdata))
  {
  }

  lemma QuantizationResults(ptype: HalProperty, pdata: PropertyData)
    requires Fits(ptype, pdata) && CaseOf(ptype) == QuantizationGroup
    ensures ResultContract(ptype, pdata, Encode(ptype, pdata))
  {
  }

  lemma QuantizationStorage(ptype: HalProperty, pdata: PropertyData)
    requires Fits(ptype, pdata) && CaseOf(ptype) == QuantizationGroup
    ensures StorageContract(ptype, pdata, Encode(ptype, pdata))
  {
  }

  lemma PreprocessingResults(ptype: HalProperty, pdata: PropertyData)
    requires Fits(ptype, pdata) && CaseOf(ptype) == PreprocessingGroup
    ensures ResultContract(ptype, pdata, Encode(ptype, pdata))
  {
  }

  lemma PreprocessingStorage(ptype: HalProperty, pdata: PropertyData)
    requires Fits(ptype, pdata) && CaseOf(ptype) == PreprocessingGroup
    ensures StorageContract(ptype, pdata, Encode(ptype, pdata))
  {
  }

  lemma ReferenceResults(ptype: HalProperty, pdata: PropertyData)
    requires Fits(ptype, pdata) && CaseOf(ptype) == ReferenceGroup
    ensures ResultContract(ptype, pdata, Encode(ptype, pdata))
  {
  }

  lemma ReferenceStorage(ptype: HalProperty, pdata: PropertyData)
    requires Fits(ptype, pdata) && CaseOf(ptype) == ReferenceGroup
    ensures StorageContract(ptype, pdata, Encode(ptype, pdata))
  {
  }

  lemma LayeringResults(ptype: HalProperty, pdata: PropertyData)
    requires Fits(ptype, pdata) && CaseOf(ptype) == LayeringGroup
    ensures ResultContract(ptype, pdata, Encode(ptype, pdata))
  {
  }

  lemma LayeringStorage(ptype: HalProperty, pdata: PropertyData)
    requires Fits(ptype, pdata) && CaseOf(ptype) == LayeringGroup
    ensures StorageContract(ptype, pdata, Encode(ptype, pdata))
  {
  }

  /** Every property, whichever case of the switch takes it, keeps the result contract. */
  lemma EncodeResults(ptype: HalProperty, pdata: PropertyData)
    requires Fits(ptype, pdata)
    ensures ResultContract(ptype, pdata, Encode(ptype, pdata))
  {
    match CaseOf(ptype)
    case Ignored => IgnoredResults(ptype, pdata);
    case FormatGroup => FormatResults(ptype, pdata);
    case DecoderOutputGroup => DecoderOutputResults(ptype, pdata);
    case BitstreamGroup => BitstreamResults(ptype, pdata);
    case RateControlGroup => RateControlResults(ptype, pdata);
    case QuantizationGroup => QuantizationResults(ptype, pdata);
    case PreprocessingGroup => PreprocessingResults(ptype, pdata);
    case ReferenceGroup => ReferenceResults(ptype, pdata);
    case LayeringGroup => LayeringResults(ptype, pdata);
    case NotImplementedYet => NotImplementedResults(ptype, pdata);
    case Default => DefaultResults(ptype, pdata);
  }

  /** Every property, whichever case of the switch takes it, keeps the storage contract. */
  lemma EncodeStorage(ptype: HalProperty, pdata: PropertyData)
    requires Fits(ptype, pdata)
    ensures StorageContract(ptype, pdata, Encode(ptype, pdata))
  {
    match CaseOf(ptype)
    case Ignored => IgnoredStorage(ptype, pdata);
    case FormatGroup => FormatStorage(ptype, pdata);
    case DecoderOutputGroup => DecoderOutputStorage(ptype, pdata);
    case BitstreamGroup => BitstreamStorage(ptype, pdata);
    case RateControlGroup => RateControlStorage(ptype, pdata);
    case QuantizationGroup => QuantizationStorage(ptype, pdata);
    case PreprocessingGroup => PreprocessingStorage(ptype, pdata);
    case ReferenceGroup => ReferenceStorage(ptype, pdata);
    case LayeringGroup => LayeringStorage(ptype, pdata);
    case NotImplementedYet => NotImplementedStorage(ptype, pdata);
    case Default => DefaultStorage(ptype, pdata);
  }

  /** Exactly three kinds of property reach the `default:` of the switch. */
  lemma DefaultCases(ptype: HalProperty)
    ensures Unhandled(ptype) <==>
      ptype.ParamGetBufferRequirements? || ptype.ParamVencH264EntropyCabacModel? || ptype.PropertyOther?
  {
  }

  /** -ENOTSUPP is returned exactly for the not-implemented list and the default case, which store nothing. */
  lemma NotSupportedExactly(ptype: HalProperty, pdata: PropertyData)
    requires Fits(ptype, pdata)
    ensures Encode(ptype, pdata).ret == -ENOTSUPP <==> NotImplemented(ptype) || Unhandled(ptype)
    ensures Encode(ptype, pdata).ret == -ENOTSUPP ==> Words(Encode(ptype, pdata)) == map[] && Encode(ptype, pdata).grow == 0
  {
    EncodeResults(ptype, pdata);
    EncodeStorage(ptype, pdata);
  }

  /** The ignored properties succeed and store nothing. */
  lemma IgnoredDoesNothing(ptype: HalProperty, pdata: PropertyData)
    requires Fits(ptype, pdata) && IgnoredProperty(ptype)
    ensures Encode(ptype, pdata).ret == 0 && Words(Encode(ptype, pdata)) == map[] && Encode(ptype, pdata).grow == 0
  {
    EncodeResults(ptype, pdata);
    EncodeStorage(ptype, pdata);
  }

  /** -EINVAL is returned exactly for the invalid inputs listed above. */
  lemma InvalidExactly(ptype: HalProperty, pdata: PropertyData)
    requires Fits(ptype, pdata)
    ensures Encode(ptype, pdata).ret == -EINVAL <==> InvalidInput(ptype, pdata)
  {
    EncodeResults(ptype, pdata);
  }

  /** -ERANGE is returned exactly for a QP range with a bound that does not fit in a byte. */
  lemma OutOfRangeExactly(ptype: HalProperty, pdata: PropertyData)
    requires Fits(ptype, pdata)
    ensures Encode(ptype, pdata).ret == -ERANGE <==> QpOutOfRange(ptype, pdata)
  {
    EncodeResults(ptype, pdata);
  }

  /**
   * Every handled property other than extradata has a fixed wire layout: its
   * case stores the layout's tag in the first property word; a success (and
   * the VPE case, whatever its result) then grows the packet by the tag word
   * and the payload structure, and a failure not at all.
   */
  lemma LayoutRespected(ptype: HalProperty, pdata: PropertyData)
    requires Fits(ptype, pdata) && Handled(ptype) && !ptype.ParamIndexExtradata?
    ensures WireLayout(ptype).Some?
    ensures var e, l := Encode(ptype, pdata), WireLayout(ptype).value;
      && PropertyData(0) in Words(e) && Words(e)[PropertyData(0)] == l.tag
      && (e.ret == 0 || ptype.ConfigVpeOperations? ==> e.grow == 4 + l.payload)
      && (e.ret != 0 && !ptype.ConfigVpeOperations? ==> e.grow == 0)
  {
    EncodeStorage(ptype, pdata);
  }

  /** The words of the extradata effect: the translated index as tag, the enable word, and the id when there is one. */
  lemma ExtradataWords(index: HalExtradata, enable: u32)
    ensures var e := ExtradataEffect(index, enable);
      && e.ret == (if index.ExtraOther? then -EINVAL else 0)
      && e.grow == 4 + Hfi.SizeofIndexExtradataConfig
      && PropertyData(0) in Words(e)
      && Words(e)[PropertyData(0)] == Mod32(Translate.ToHfiExtradataIndex(index))
      && Member(Enable) in Words(e) && Words(e)[Member(Enable)] == enable
      && (Member(IndexExtraDataId) in Words(e) <==> !index.ExtraOther?)
      && (!index.ExtraOther? ==> Words(e)[Member(IndexExtraDataId)] == Mod32(Translate.ToHfiExtradataId(index)))
  {
  }

  /**
   * The extradata case has no fixed tag: it stores the translated extradata
   * index as the tag, then the enable word, and the extradata id only when
   * the kind has one. It grows the packet by the tag word and the extradata
   * structure whatever its result, the -EINVAL for an unknown kind included.
   */
  lemma ExtradataLayout(pdata: PropertyData)
    requires Fits(ParamIndexExtradata, pdata)
    ensures var e := Encode(ParamIndexExtradata, pdata);
      && e.ret == (if pdata.index.ExtraOther? then -EINVAL else 0)
      && e.grow == 4 + Hfi.SizeofIndexExtradataConfig
      && PropertyData(0) in Words(e)
      && Words(e)[PropertyData(0)] == Mod32(Translate.ToHfiExtradataIndex(pdata.index))
      && Member(Enable) in Words(e) && Words(e)[Member(Enable)] == pdata.enable
      && (Member(IndexExtraDataId) in Words(e) <==> !pdata.index.ExtraOther?)
      && (!pdata.index.ExtraOther? ==>
            Words(e)[Member(IndexExtraDataId)] == Mod32(Translate.ToHfiExtradataId(pdata.index)))
  {
    assert CaseOf(ParamIndexExtradata) == PreprocessingGroup;
    assert Encode(ParamIndexExtradata, pdata) == ExtradataEffect(pdata.index, pdata.enable);
    ExtradataWords(pdata.index, pdata.enable);
  }
}

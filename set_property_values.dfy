/**
 * The words individual cases of `pkt_session_set_property` write: the packed
 * QP range, the profile and level fallbacks, the CABAC model quirk, and the
 * enumerations whose unknown values are logged and left unwritten.
 */
module SetPropertyValues {
  import opened Base
  import opened Hal
  import opened Packet
  import opened SetProperty
  import Hfi
  import Translate

  /** Word `w` carries `q` in each of its low three bytes and nothing above them. */
  predicate PackedLanes(w: u32, q: u32)
  {
    w % 0x100 == q && (w / 0x100) % 0x100 == q && (w / 0x10000) % 0x100 == q && w / 0x1000000 == 0
  }

  /**
   * On a 32-bit word, the driver's packing `q | q << 8 | q << 16` of a byte
   * is the product `q * 0x10101` that `PackQp` computes.
   */
  lemma PackedShiftsAreProduct(q: bv32)
    requires q <= 0xff
    ensures q | (q << 8) | (q << 16) == q * 0x10101
  {
  }

  /**
   * A QP range whose bounds fit in a byte succeeds, and each bound is sent
   * replicated into the I, P and B bytes of its word; the layer id is copied.
   */
  lemma QpRangePacked(pdata: PropertyData)
    requires Fits(ParamVencSessionQpRange, pdata)
    requires pdata.minQp <= MaxPackedQp && pdata.maxQp <= MaxPackedQp
    ensures var e := Encode(ParamVencSessionQpRange, pdata);
      && e.ret == 0
      && Member(MinQp) in Words(e) && PackedLanes(Words(e)[Member(MinQp)], pdata.minQp)
      && Member(MaxQp) in Words(e) && PackedLanes(Words(e)[Member(MaxQp)], pdata.maxQp)
      && Member(LayerId) in Words(e) && Words(e)[Member(LayerId)] == pdata.layerId
  {
    var e := Encode(ParamVencSessionQpRange, pdata);
    assert e.payload == map[Member(MinQp) := PackQp(pdata.minQp), Member(MaxQp) := PackQp(pdata.maxQp),
                            Member(LayerId) := pdata.layerId];
  }

  /** The profile and level words of a profile-level packet. */
  function ProfileLevelWords(pdata: PropertyData): (w: map<Field, u32>)
    requires Fits(ParamProfileLevelCurrent, pdata)
  {
    Words(Encode(ParamProfileLevelCurrent, pdata))
  }

  /**
   * The profile-level case always succeeds. A level of 0 is sent as 1 and any
   * other level as given. The profile is sent translated, except that a
   * translation that reads back as the word 0 is replaced by HIGH.
   */
  lemma ProfileLevelFallback(pdata: PropertyData)
    requires Fits(ParamProfileLevelCurrent, pdata)
    ensures Encode(ParamProfileLevelCurrent, pdata).ret == 0
    ensures var w := ProfileLevelWords(pdata);
      && Member(Level) in w && w[Member(Level)] != 0
      && (pdata.level != 0 ==> w[Member(Level)] == pdata.level)
      && Member(Profile) in w
      && var p := Mod32(Translate.ToHfiType(ParamProfileLevelCurrent, pdata.profile));
         w[Member(Profile)] == if p == 0 then Hfi.H264ProfileHigh else p
  {
    var e := Encode(ParamProfileLevelCurrent, pdata);
    assert e.payload == map[Member(Level) := LevelWord(pdata.level), Member(Profile) := ProfileWord(pdata.profile)];
  }

  /** A profile listed in the profile table is sent as its HFI code, unless that code is the word 0. */
  lemma ListedProfileSent(pdata: PropertyData, k: nat)
    requires Fits(ParamProfileLevelCurrent, pdata)
    requires k < |Translate.ProfileEntries| && Translate.LastForSlot(Translate.ProfileEntries, k)
    requires pdata.profile == Translate.ProfileEntries[k].flag
    requires Mod32(Translate.ProfileEntries[k].code) != 0
    ensures ProfileLevelWords(pdata)[Member(Profile)] == Mod32(Translate.ProfileEntries[k].code)
  {
    Translate.ListedFlagTranslates(ParamProfileLevelCurrent, k);
    ProfileLevelFallback(pdata);
  }

  /** A power of two inside the profile table that no entry names translates to 0 and falls back to HIGH. */
  lemma UnlistedProfileFallsBack(pdata: PropertyData)
    requires Fits(ParamProfileLevelCurrent, pdata)
    requires IsPow2(pdata.profile)
    requires Log2(pdata.profile) < |Translate.Designate(Translate.ProfileEntries)|
    requires forall k | 0 <= k < |Translate.ProfileEntries| ::
      Translate.Slot(Translate.ProfileEntries[k]) != Log2(pdata.profile)
    ensures ProfileLevelWords(pdata)[Member(Profile)] == Hfi.H264ProfileHigh
  {
    Translate.UnlistedFlagIsZero(ParamProfileLevelCurrent, pdata.profile);
    ProfileLevelFallback(pdata);
  }

  /**
   * A profile that is not a power of two translates to -EINVAL, which the
   * unsigned profile word holds as a nonzero value: it is sent wrapped, not
   * replaced by HIGH.
   */
  lemma InvalidProfileSentWrapped(pdata: PropertyData)
    requires Fits(ParamProfileLevelCurrent, pdata)
    requires pdata.profile != 0 && !IsPow2(pdata.profile)
    ensures ProfileLevelWords(pdata)[Member(Profile)] == Mod32(-EINVAL)
    ensures ProfileLevelWords(pdata)[Member(Profile)] != 0
  {
    ProfileLevelFallback(pdata);
  }

  /**
   * A power of two past the end of the profile table translates to -ENOTSUPP,
   * which the unsigned profile word also holds as a nonzero value: it is sent
   * wrapped as well, not replaced by HIGH.
   */
  lemma PastTableProfileSentWrapped(pdata: PropertyData)
    requires Fits(ParamProfileLevelCurrent, pdata)
    requires IsPow2(pdata.profile)
    requires Log2(pdata.profile) >= |Translate.Designate(Translate.ProfileEntries)|
    ensures ProfileLevelWords(pdata)[Member(Profile)] == Mod32(-ENOTSUPP)
    ensures ProfileLevelWords(pdata)[Member(Profile)] != 0
  {
    ProfileLevelFallback(pdata);
  }

  /**
   * The entropy case writes the CABAC model exactly when the translated HFI
   * mode equals the HAL flag for CABAC: the comparison mixes the two
   * numbering schemes.
   */
  lemma CabacModelWritten(pdata: PropertyData)
    requires Fits(ParamVencH264EntropyControl, pdata)
    ensures var e := Encode(ParamVencH264EntropyControl, pdata);
      && e.ret == 0
      && Member(EntropyMode) in Words(e)
      && Words(e)[Member(EntropyMode)] == Mod32(Translate.ToHfiType(ParamVencH264EntropyControl, pdata.entropyMode))
      && (Member(CabacModel) in Words(e) <==> Words(e)[Member(EntropyMode)] == Hal.H264EntropyCabac)
  {
    var e := Encode(ParamVencH264EntropyControl, pdata);
    assert CaseOf(ParamVencH264EntropyControl) == RateControlGroup;
    assert e == Stored(Hfi.PropParamVencH264EntropyControl, EntropyWords(pdata.entropyMode, pdata.cabacModel),
                       Hfi.SizeofH264EntropyControl);
    EntropyWordsShape(pdata.entropyMode, pdata.cabacModel);
  }

  /** The entropy words: the translated mode, and the CABAC model exactly when that mode equals the HAL flag for CABAC. */
  lemma EntropyWordsShape(entropyMode: int, cabacModel: int)
    ensures var w := EntropyWords(entropyMode, cabacModel);
      && Member(EntropyMode) in w
      && w[Member(EntropyMode)] == Mod32(Translate.ToHfiType(ParamVencH264EntropyControl, entropyMode))
      && (Member(CabacModel) in w <==> w[Member(EntropyMode)] == Hal.H264EntropyCabac)
      && PropertyData(0) !in w
  {
  }

  /**
   * Asking for CABAC sends the HFI CABAC code, and the CABAC model follows it
   * only when the HFI and HAL codes for CABAC happen to be the same number.
   */
  lemma CabacRequested(pdata: PropertyData)
    requires Fits(ParamVencH264EntropyControl, pdata)
    requires pdata.entropyMode == Hal.H264EntropyCabac
    ensures var w := Words(Encode(ParamVencH264EntropyControl, pdata));
      && Member(EntropyMode) in w && w[Member(EntropyMode)] == Hfi.H264EntropyCabac
      && (Member(CabacModel) in w <==> Hfi.H264EntropyCabac == Hal.H264EntropyCabac)
  {
    Translate.ListedFlagTranslates(ParamVencH264EntropyControl, 1);
    CabacModelWritten(pdata);
  }

  /** The enumerations sent as the single word after the tag. */
  predicate SingleWordCase(ptype: HalProperty)
  {
    ptype.ParamVdecOutputOrder? || ptype.ParamDivxFormat? || ptype.ParamVencRateControl?
  }

  /** The code of a single-word case's enumeration, if it is a known value. */
  function SingleWordCode(ptype: HalProperty, pdata: PropertyData): Option<u32>
    requires Fits(ptype, pdata) && SingleWordCase(ptype)
  {
    if ptype.ParamVdecOutputOrder? then OutputOrderCode(pdata.order)
    else if ptype.ParamDivxFormat? then DivxCode(pdata.divx)
    else RateControlCode(pdata.rc)
  }

  /**
   * The output-order, DivX and rate-control cases succeed and grow the
   * packet by two words whatever their value; a known value is written after
   * the tag, an unknown one is logged and the word left as it was.
   */
  lemma SingleWordLogged(ptype: HalProperty, pdata: PropertyData)
    requires Fits(ptype, pdata) && SingleWordCase(ptype)
    ensures var e, code := Encode(ptype, pdata), SingleWordCode(ptype, pdata);
      && e.ret == 0 && e.grow == 8
      && (PropertyData(1) in Words(e) <==> code.Some?)
      && (code.Some? ==> Words(e)[PropertyData(1)] == code.value)
  {
    var e := Encode(ptype, pdata);
    assert e.payload == Optional(PropertyData(1), SingleWordCode(ptype, pdata));
  }

  /** The structured cases with one enumerated member. */
  predicate ModeCase(ptype: HalProperty)
  {
    ptype.ParamVencH264DeblockControl? || ptype.ParamVencIntraRefresh? || ptype.ParamVencMultiSliceControl?
  }

  /** The member that holds a mode case's enumeration. */
  function ModeMember(ptype: HalProperty): Payload
    requires ModeCase(ptype)
  {
    if ptype.ParamVencMultiSliceControl? then MultiSlice else Mode
  }

  /** The code of a mode case's enumeration, if it is a known value. */
  function ModeCode(ptype: HalProperty, pdata: PropertyData): Option<u32>
    requires Fits(ptype, pdata) && ModeCase(ptype)
  {
    if ptype.ParamVencH264DeblockControl? then DeblockCode(pdata.dbMode)
    else if ptype.ParamVencIntraRefresh? then IntraRefreshCode(pdata.irMode)
    else MultiSliceCode(pdata.multiSlice)
  }

  /**
   * The deblocking, intra-refresh and multi-slice cases succeed whatever
   * their mode; a known mode is written, an unknown one is logged and its
   * member left as it was.
   */
  lemma ModeLogged(ptype: HalProperty, pdata: PropertyData)
    requires Fits(ptype, pdata) && ModeCase(ptype)
    ensures var e, code := Encode(ptype, pdata), ModeCode(ptype, pdata);
      && e.ret == 0
      && (Member(ModeMember(ptype)) in Words(e) <==> code.Some?)
      && (code.Some? ==> Words(e)[Member(ModeMember(ptype))] == code.value)
  {
  }
}

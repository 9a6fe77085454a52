/**
 * The OV5640 sensor modes: the table of output sizes, the search for the
 * largest mode that fits a requested size, and frame-size enumeration.
 */
module Ov5640Modes {
  import opened Base
  import Cci

  /** `enum ov5640_mode`: 720P, 1080P and 5MP; `OV5640_MODE_MAX` is the last. */
  const ModeMax: int := 2

  type ModeIndex = i: int | 0 <= i <= ModeMax

  /** The output size of one mode. */
  datatype ModeInfo = ModeInfo(width: u32, height: u32)

  /** `ov5640_mode_info_data`, indexed by mode. */
  const ModeTable: seq<ModeInfo> := [ModeInfo(1280, 720), ModeInfo(1920, 1080), ModeInfo(2592, 1944)]

  /** Mode `i` is no wider and no taller than the requested size. */
  predicate ModeFits(i: ModeIndex, width: u32, height: u32)
  {
    ModeTable[i].width <= width && ModeTable[i].height <= height
  }

  /** The modes grow strictly in both dimensions. */
  lemma TableAscending(i: ModeIndex, j: ModeIndex)
    requires i < j
    ensures ModeTable[i].width < ModeTable[j].width && ModeTable[i].height < ModeTable[j].height
  {
  }

  /** The largest mode at or below `i` that fits, or 0 when none does. */
  function NearestFrom(i: ModeIndex, width: u32, height: u32): (m: ModeIndex)
    ensures m <= i
    ensures ModeFits(m, width, height) || (m == 0 && forall j: ModeIndex | j <= i :: !ModeFits(j, width, height))
    ensures forall j: ModeIndex | m < j <= i :: !ModeFits(j, width, height)
    decreases i
  {
    if i == 0 || ModeFits(i, width, height) then i else NearestFrom(i - 1, width, height)
  }

  /** `ov5640_find_nearest_mode`: the largest mode that fits the requested size, or the smallest mode when none does. */
  function NearestMode(width: u32, height: u32): (m: ModeIndex)
    ensures ModeFits(m, width, height) || (m == 0 && forall j: ModeIndex :: !ModeFits(j, width, height))
    ensures forall j: ModeIndex | m < j :: !ModeFits(j, width, height)
  {
    NearestFrom(ModeMax, width, height)
  }

  /**
   * The search as the driver runs it: from the largest mode downwards,
   * stopping at the first that fits; running off the bottom selects mode 0.
   */
  method FindNearestMode(width: u32, height: u32) returns (mode: ModeIndex)
    ensures mode == NearestMode(width, height)
  {
    var i: int := ModeMax;
    while i >= 0 && !(ModeTable[i].width <= width && ModeTable[i].height <= height)
      invariant -1 <= i <= ModeMax
      invariant forall j: ModeIndex | i < j :: !ModeFits(j, width, height)
      decreases i
    {
      i := i - 1;
    }
    if i < 0 {
      i := 0;
    }
    mode := i;
    NearestUnique(width, height, mode);
  }

  /** The two properties of `NearestMode` determine it. */
  lemma NearestUnique(width: u32, height: u32, m: ModeIndex)
    requires ModeFits(m, width, height) || (m == 0 && forall j: ModeIndex :: !ModeFits(j, width, height))
    requires forall j: ModeIndex | m < j :: !ModeFits(j, width, height)
    ensures m == NearestMode(width, height)
  {
  }

  /** Asking for a larger size never selects a smaller mode. */
  lemma {:induction false} NearestMonotonic(w1: u32, h1: u32, w2: u32, h2: u32)
    requires w1 <= w2 && h1 <= h2
    ensures NearestMode(w1, h1) <= NearestMode(w2, h2)
  {
    var m := NearestMode(w1, h1);
    if ModeFits(m, w1, h1) {
      assert ModeFits(m, w2, h2);
    }
  }

  /** Asking for a mode's exact size selects that mode. */
  lemma ExactSizeSelectsMode(i: ModeIndex)
    ensures NearestMode(ModeTable[i].width, ModeTable[i].height) == i
  {
    var w, h := ModeTable[i].width, ModeTable[i].height;
    forall j: ModeIndex | i < j ensures !ModeFits(j, w, h) {
      TableAscending(i, j);
    }
    NearestUnique(w, h, i);
  }

  /** The sizes of a `struct v4l2_subdev_frame_size_enum` the driver fills in. */
  datatype FrameSize = FrameSize(minWidth: u32, maxWidth: u32, minHeight: u32, maxHeight: u32)

  /**
   * `ov5640_enum_frame_size`: an index below `OV5640_MODE_MAX` reports that
   * mode's size as both minimum and maximum and returns 0; any other index
   * returns -EINVAL and reports nothing.
   */
  function EnumFrameSize(index: u32): (r: (Cci.Status, Option<FrameSize>))
    ensures r.0 == 0 <==> index < ModeMax
    ensures r.0 != 0 ==> r == (Cci.EinvalStatus, None)
    ensures r.1.Some? <==> index < ModeMax
    ensures index < ModeMax ==>
      var s := r.1.value;
      && s.minWidth == s.maxWidth == ModeTable[index].width
      && s.minHeight == s.maxHeight == ModeTable[index].height
  {
    if index >= ModeMax then (Cci.EinvalStatus, None)
    else
      var m := ModeTable[index];
      (0, Some(FrameSize(m.width, m.width, m.height, m.height)))
  }

  /**
   * The enumeration stops one short of the table: the 5MP mode is never
   * reported, although a request for its size selects it.
   */
  lemma FiveMegapixelNotEnumerated(index: u32)
    ensures EnumFrameSize(index).1.Some? ==>
      EnumFrameSize(index).1.value.maxWidth != ModeTable[ModeMax].width
    ensures NearestMode(ModeTable[ModeMax].width, ModeTable[ModeMax].height) == ModeMax
  {
    ExactSizeSelectsMode(ModeMax);
  }

  /** Every size the enumeration reports selects the mode it came from. */
  lemma EnumeratedSizeSelectsMode(index: u32)
    requires EnumFrameSize(index).1.Some?
    ensures var s := EnumFrameSize(index).1.value;
      NearestMode(s.maxWidth, s.maxHeight) == index as int
  {
    ExactSizeSelectsMode(index as int);
  }
}

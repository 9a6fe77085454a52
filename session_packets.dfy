/**
 * The session-scope encoders of the packetizer other than the buffer and
 * set-property ones. A session is identified to the firmware by the hash of
 * its handle; an encoder that checks for a NULL session rejects it before
 * writing anything.
 */
module SessionPackets {
  import opened Base
  import opened Hal
  import opened Packet
  import Hfi
  import Translate

  /** `pkt_session_init`: an unknown codec is reported after the packet is written with codec 0. */
  method PktSessionInit(pkt: Packet, session: Ptr, domain: u32, codec: HalCodec) returns (ret: int)
    modifies pkt
    ensures pkt.size == Hfi.SizeofSessionInitPkt
    ensures pkt.words == old(pkt.words)[PacketType := Hfi.CmdSysSessionInit]
                           [SessionId := Hash32Ptr(session)][SessionDomain := domain]
                           [SessionCodec := Translate.ToHfiCodec(codec)]
    ensures ret == (if codec.CodecOther? then -EINVAL else 0)
  {
    pkt.size := Hfi.SizeofSessionInitPkt;
    pkt.words := pkt.words[PacketType := Hfi.CmdSysSessionInit];
    pkt.words := pkt.words[SessionId := Hash32Ptr(session)];
    pkt.words := pkt.words[SessionDomain := domain];
    pkt.words := pkt.words[SessionCodec := Translate.ToHfiCodec(codec)];
    if pkt.words[SessionCodec] == 0 {
      return -EINVAL;
    }
    return 0;
  }

  /** `pkt_session_cmd`: a bare session command of the caller's packet type. */
  method PktSessionCmd(pkt: Packet, pktType: int, session: Ptr) returns (ret: int)
    modifies pkt
    ensures ret == 0
    ensures pkt.size == Hfi.SizeofSessionCmdPkt
    ensures pkt.words == old(pkt.words)[PacketType := Mod32(pktType)][SessionId := Hash32Ptr(session)]
  {
    pkt.size := Hfi.SizeofSessionCmdPkt;
    pkt.words := pkt.words[PacketType := Mod32(pktType)];
    pkt.words := pkt.words[SessionId := Hash32Ptr(session)];
    return 0;
  }

  /** The words both empty-buffer encoders write about the frame. */
  function FrameWords(f: FrameData): map<Field, u32>
  {
    map[TimeStampHi := Upper32(f.timestamp), TimeStampLo := Lower32(f.timestamp),
        Flags := f.flags, MarkTarget := f.markTarget, MarkData := f.markData,
        Offset := f.offset, AllocLen := f.allocLen, FilledLen := f.filledLen,
        InputTag := f.clntData, PacketBuffer := f.deviceAddr]
  }

  /**
   * `pkt_session_etb_decoder`: a NULL session or a frame without a device
   * address is rejected untouched; otherwise the frame is described, its
   * timestamp split into two words the firmware can join back.
   */
  method PktSessionEtbDecoder(pkt: Packet, session: Ptr, inFrame: FrameData) returns (ret: int)
    modifies pkt
    ensures session == NULL || inFrame.deviceAddr == 0 ==>
      ret == -EINVAL && pkt.View() == old(pkt.View())
    ensures session != NULL && inFrame.deviceAddr != 0 ==>
      && ret == 0
      && pkt.size == Hfi.SizeofEmptyBufferCompressedPkt
      && pkt.words == old(pkt.words)[PacketType := Hfi.CmdSessionEmptyBuffer]
                        [SessionId := Hash32Ptr(session)] + FrameWords(inFrame)
      && Join64(pkt.words[TimeStampHi], pkt.words[TimeStampLo]) == inFrame.timestamp
      && pkt.words[InputTag] == inFrame.clntData
  {
    if session == NULL || inFrame.deviceAddr == 0 {
      return -EINVAL;
    }
    pkt.size := Hfi.SizeofEmptyBufferCompressedPkt;
    pkt.words := pkt.words[PacketType := Hfi.CmdSessionEmptyBuffer][SessionId := Hash32Ptr(session)];
    pkt.words := pkt.words + FrameWords(inFrame);
    SplitJoin64(inFrame.timestamp);
    return 0;
  }

  /** `pkt_session_etb_encoder`: as the decoder variant, plus view 0 and the extradata buffer. */
  method PktSessionEtbEncoder(pkt: Packet, session: Ptr, inFrame: FrameData) returns (ret: int)
    modifies pkt
    ensures session == NULL || inFrame.deviceAddr == 0 ==>
      ret == -EINVAL && pkt.View() == old(pkt.View())
    ensures session != NULL && inFrame.deviceAddr != 0 ==>
      && ret == 0
      && pkt.size == Hfi.SizeofEmptyBufferUncompressedPlane0Pkt
      && pkt.words == old(pkt.words)[PacketType := Hfi.CmdSessionEmptyBuffer]
                        [SessionId := Hash32Ptr(session)][ViewId := 0] + FrameWords(inFrame)
                        [ExtraDataBuffer := inFrame.extradataAddr]
      && Join64(pkt.words[TimeStampHi], pkt.words[TimeStampLo]) == inFrame.timestamp
      && pkt.words[InputTag] == inFrame.clntData
  {
    if session == NULL || inFrame.deviceAddr == 0 {
      return -EINVAL;
    }
    pkt.size := Hfi.SizeofEmptyBufferUncompressedPlane0Pkt;
    pkt.words := pkt.words[PacketType := Hfi.CmdSessionEmptyBuffer][SessionId := Hash32Ptr(session)][ViewId := 0];
    pkt.words := pkt.words + FrameWords(inFrame);
    pkt.words := pkt.words[ExtraDataBuffer := inFrame.extradataAddr];
    SplitJoin64(inFrame.timestamp);
    return 0;
  }

  /**
   * The stream a fill-buffer packet names: 0 for the primary output, 1 for
   * the secondary one; for any other role the word is left as it was.
   */
  function StreamIdWords(role: HalBuffer): (m: map<Field, u32>)
    ensures StreamId in m <==> role == BufOutput || role == BufOutput2
  {
    if role == BufOutput then map[StreamId := 0]
    else if role == BufOutput2 then map[StreamId := 1]
    else map[]
  }

  /** `pkt_session_ftb`. */
  method PktSessionFtb(pkt: Packet, session: Ptr, outFrame: Option<FrameData>) returns (ret: int)
    modifies pkt
    ensures session == NULL || outFrame.None? || outFrame.value.deviceAddr == 0 ==>
      ret == -EINVAL && pkt.View() == old(pkt.View())
    ensures session != NULL && outFrame.Some? && outFrame.value.deviceAddr != 0 ==>
      var f := outFrame.value;
      && ret == 0
      && pkt.size == Hfi.SizeofFillBufferPkt
      && pkt.words == old(pkt.words)[PacketType := Hfi.CmdSessionFillBuffer]
                        [SessionId := Hash32Ptr(session)] + StreamIdWords(f.bufferType)
                        [PacketBuffer := f.deviceAddr][ExtraDataBuffer := f.extradataAddr]
                        [AllocLen := f.allocLen][FilledLen := f.filledLen][Offset := f.offset]
                        [RgData(0) := f.extradataSize]
  {
    if session == NULL || outFrame.None? || outFrame.value.deviceAddr == 0 {
      return -EINVAL;
    }
    var f := outFrame.value;
    pkt.size := Hfi.SizeofFillBufferPkt;
    pkt.words := pkt.words[PacketType := Hfi.CmdSessionFillBuffer][SessionId := Hash32Ptr(session)];
    if f.bufferType == BufOutput {
      pkt.words := pkt.words[StreamId := 0];
    } else if f.bufferType == BufOutput2 {
      pkt.words := pkt.words[StreamId := 1];
    }
    pkt.words := pkt.words[PacketBuffer := f.deviceAddr][ExtraDataBuffer := f.extradataAddr]
                          [AllocLen := f.allocLen][FilledLen := f.filledLen][Offset := f.offset]
                          [RgData(0) := f.extradataSize];
    return 0;
  }

  /** A sequence header the two header encoders accept: present and with a buffer. */
  predicate UsableSeqHdr(session: Ptr, seqHdr: Option<SeqHdr>)
  {
    session != NULL && seqHdr.Some? && seqHdr.value.seqHdr != 0
  }

  /** `pkt_session_parse_seq_header`. */
  method PktSessionParseSeqHeader(pkt: Packet, session: Ptr, seqHdr: Option<SeqHdr>) returns (ret: int)
    modifies pkt
    ensures !UsableSeqHdr(session, seqHdr) ==> ret == -EINVAL && pkt.View() == old(pkt.View())
    ensures UsableSeqHdr(session, seqHdr) ==>
      && ret == 0
      && pkt.size == Hfi.SizeofParseSequenceHeaderPkt
      && pkt.words == old(pkt.words)[PacketType := Hfi.CmdSessionParseSequenceHeader]
                        [SessionId := Hash32Ptr(session)][HeaderLen := seqHdr.value.seqHdrLen]
                        [PacketBuffer := seqHdr.value.seqHdr]
  {
    if session == NULL || seqHdr.None? || seqHdr.value.seqHdr == 0 {
      return -EINVAL;
    }
    pkt.size := Hfi.SizeofParseSequenceHeaderPkt;
    pkt.words := pkt.words[PacketType := Hfi.CmdSessionParseSequenceHeader];
    pkt.words := pkt.words[SessionId := Hash32Ptr(session)];
    pkt.words := pkt.words[HeaderLen := seqHdr.value.seqHdrLen];
    pkt.words := pkt.words[PacketBuffer := seqHdr.value.seqHdr];
    return 0;
  }

  /** `pkt_session_get_seq_hdr`. */
  method PktSessionGetSeqHdr(pkt: Packet, session: Ptr, seqHdr: Option<SeqHdr>) returns (ret: int)
    modifies pkt
    ensures !UsableSeqHdr(session, seqHdr) ==> ret == -EINVAL && pkt.View() == old(pkt.View())
    ensures UsableSeqHdr(session, seqHdr) ==>
      && ret == 0
      && pkt.size == Hfi.SizeofGetSequenceHeaderPkt
      && pkt.words == old(pkt.words)[PacketType := Hfi.CmdSessionGetSequenceHeader]
                        [SessionId := Hash32Ptr(session)][BufferLen := seqHdr.value.seqHdrLen]
                        [PacketBuffer := seqHdr.value.seqHdr]
  {
    if session == NULL || seqHdr.None? || seqHdr.value.seqHdr == 0 {
      return -EINVAL;
    }
    pkt.size := Hfi.SizeofGetSequenceHeaderPkt;
    pkt.words := pkt.words[PacketType := Hfi.CmdSessionGetSequenceHeader];
    pkt.words := pkt.words[SessionId := Hash32Ptr(session)];
    pkt.words := pkt.words[BufferLen := seqHdr.value.seqHdrLen];
    pkt.words := pkt.words[PacketBuffer := seqHdr.value.seqHdr];
    return 0;
  }

  /** The firmware flush kind of a HAL flush request, if it has one. */
  function FlushKind(t: HalFlush): (r: Option<u32>)
    ensures r.None? <==> t.FlushOther?
  {
    match t
    case FlushInput => Some(Hfi.FlushInput)
    case FlushOutput => Some(Hfi.FlushOutput)
    case FlushOutput2 => Some(Hfi.FlushOutput2)
    case FlushAll => Some(Hfi.FlushAll)
    case FlushOther(_) => None
  }

  /** `pkt_session_flush`: an unknown flush kind is rejected after the header is written. */
  method PktSessionFlush(pkt: Packet, session: Ptr, t: HalFlush) returns (ret: int)
    modifies pkt
    ensures session == NULL ==> ret == -EINVAL && pkt.View() == old(pkt.View())
    ensures session != NULL ==>
      var header := old(pkt.words)[PacketType := Hfi.CmdSessionFlush][SessionId := Hash32Ptr(session)];
      && pkt.size == Hfi.SizeofFlushPkt
      && match FlushKind(t)
         case None => ret == -EINVAL && pkt.words == header
         case Some(kind) => ret == 0 && pkt.words == header[FlushType := kind]
  {
    if session == NULL {
      return -EINVAL;
    }
    pkt.size := Hfi.SizeofFlushPkt;
    pkt.words := pkt.words[PacketType := Hfi.CmdSessionFlush];
    pkt.words := pkt.words[SessionId := Hash32Ptr(session)];
    match t {
      case FlushInput => pkt.words := pkt.words[FlushType := Hfi.FlushInput];
      case FlushOutput => pkt.words := pkt.words[FlushType := Hfi.FlushOutput];
      case FlushOutput2 => pkt.words := pkt.words[FlushType := Hfi.FlushOutput2];
      case FlushAll => pkt.words := pkt.words[FlushType := Hfi.FlushAll];
      case FlushOther(_) => return -EINVAL;
    }
    return 0;
  }

  /** The properties a session can be asked for, with the firmware tag of each. */
  function GettableTag(ptype: HalProperty): (r: Option<u32>)
    ensures r.Some? <==> ptype == ParamProfileLevelCurrent || ptype == ParamGetBufferRequirements
  {
    match ptype
    case ParamProfileLevelCurrent => Some(Hfi.PropParamProfileLevelCurrent)
    case ParamGetBufferRequirements => Some(Hfi.PropConfigBufferRequirements)
    case _ => None
  }

  /** `pkt_session_get_property`: any other property is refused with -ENOTSUPP after the header. */
  method PktSessionGetProperty(pkt: Packet, session: Ptr, ptype: HalProperty) returns (ret: int)
    modifies pkt
    ensures session == NULL ==> ret == -EINVAL && pkt.View() == old(pkt.View())
    ensures session != NULL ==>
      var header := old(pkt.words)[PacketType := Hfi.CmdSessionGetProperty]
                                  [SessionId := Hash32Ptr(session)][NumProperties := 1];
      && pkt.size == Hfi.SizeofSessionGetPropertyPkt
      && match GettableTag(ptype)
         case None => ret == -ENOTSUPP && pkt.words == header
         case Some(tag) => ret == 0 && pkt.words == header[PropertyData(0) := tag]
  {
    if session == NULL {
      return -EINVAL;
    }
    pkt.size := Hfi.SizeofSessionGetPropertyPkt;
    pkt.words := pkt.words[PacketType := Hfi.CmdSessionGetProperty];
    pkt.words := pkt.words[SessionId := Hash32Ptr(session)];
    pkt.words := pkt.words[NumProperties := 1];
    var tag := GettableTag(ptype);
    if tag.None? {
      return -ENOTSUPP;
    }
    pkt.words := pkt.words[PropertyData(0) := tag.value];
    return 0;
  }
}

/**
 * A firmware command packet as the caller's buffer that the encoders fill in
 * place: a `size` word and the other words of the packet, addressed by the
 * structure member they belong to. A word no encoder writes keeps whatever the
 * buffer held before.
 */
module Packet {
  import opened Base

  /** Members of the payload structure laid over `rg_property_data[1]` onwards. */
  datatype Payload =
    | Enable | DebugConfig | DebugMode
    | BufferType | FrameRate | Format | Width | Height | CountActual | Type | Size
    | HoldCount | NalStreamFormatSelect | PictureType | Count | BitRate | LayerId
    | Profile | Level | EntropyMode | CabacModel | TimeIncrementResolution
    | HeaderExtension | Mode | SliceAlphaOffset | SliceBetaOffset | QpI | QpP | QpB
    | MinQp | MaxQp | SearchRangeX(i: nat) | SearchRangeY(i: nat) | Copied(k: nat)
    | IdrPeriod | ConcealColor | Rotation | Flip | AirMbs | AirRef | CirMbs
    | MultiSlice | SliceSize | IndexExtraDataId | FixedFrameRate | TimeScale
    | ThresholdValue | LayoutType | BrightViewFirst | Ngap | LtrMode | LtrCount
    | TrustMode | Frames | RefLtr | UseConstrnt | MarkFrame | InitQpEnable
    | CscMatrix(i: nat) | CscBias(i: nat) | CscLimit(i: nat)

  /** The words of a packet other than `size`. */
  datatype Field =
    | PacketType | SessionId | NumProperties | ArchType
    | PropertyData(index: nat)
    | Member(m: Payload)
    | ResourceHandle | ResourceType | ResourceMemSize | ResourceMem
    | SessionDomain | SessionCodec
    | BufferTypeField | BufferSizeField | ExtraDataSize | MinBufferSize | NumBuffers | ResponseReq
    /** `rg_buffer_info[i]` read as a plain word array. */
    | BufferInfo(index: nat)
    /** The members of the `i`-th `struct hfi_buffer_info` record laid over `rg_buffer_info`. */
    | RecordBufferAddr(index: nat) | RecordExtraDataAddr(index: nat)
    | TimeStampHi | TimeStampLo | Flags | MarkTarget | MarkData | Offset
    | AllocLen | FilledLen | InputTag | PacketBuffer | ViewId | ExtraDataBuffer
    | StreamId | RgData(index: nat)
    | HeaderLen | BufferLen | FlushType | TriggerType

  /** A packet's contents as a value. */
  datatype PacketView = PacketView(size: u32, words: map<Field, u32>)

  /** What an encoder returns and leaves in the packet. */
  datatype Encoded = Encoded(ret: int, pkt: PacketView)

  class Packet {
    var size: u32
    var words: map<Field, u32>

    function View(): PacketView
      reads this
    {
      PacketView(size, words)
    }
  }
}

/**
 * Registering and releasing buffers with a session. Output buffers are
 * described by address records, every other kind by a flat list of device
 * addresses. The record loop never moves on from the first record, so every
 * iteration rewrites record 0 and the rest of the list is left as it was.
 */
module Buffers {
  import opened Base
  import opened Hal
  import opened Packet
  import Hfi
  import Translate

  /** The buffer roles that are described by address records rather than a flat list. */
  predicate IsOutputRole(b: HalBuffer)
  {
    b == BufOutput || b == BufOutput2
  }

  /** The words after `n` iterations of the flat loop: slots `0 .. n-1` hold `addr`. */
  function FillAddrs(w: map<Field, u32>, n: nat, addr: u32): map<Field, u32>
  {
    if n == 0 then w else FillAddrs(w, n - 1, addr)[BufferInfo(n - 1) := addr]
  }

  /** The first `n` slots of the flat list hold `addr`; every other word is as before. */
  lemma {:induction false} FillAddrsContents(w: map<Field, u32>, n: nat, addr: u32, f: Field)
    ensures f.BufferInfo? && f.index < n ==> f in FillAddrs(w, n, addr) && FillAddrs(w, n, addr)[f] == addr
    ensures !(f.BufferInfo? && f.index < n) ==>
      (f in FillAddrs(w, n, addr) <==> f in w) && (f in w ==> FillAddrs(w, n, addr)[f] == w[f])
    decreases n
  {
    if n > 0 {
      FillAddrsContents(w, n - 1, addr, f);
    }
  }

  /** The words after `n` iterations of the record loop: only record 0 is ever written. */
  function FirstRecord(w: map<Field, u32>, n: nat, addr: u32, extraAddr: u32): (r: map<Field, u32>)
    ensures n == 0 ==> r == w
  {
    if n == 0 then w else w[RecordBufferAddr(0) := addr][RecordExtraDataAddr(0) := extraAddr]
  }

  /** After one or more iterations record 0 describes the buffer; every other word is as before. */
  lemma FirstRecordContents(w: map<Field, u32>, n: nat, addr: u32, extraAddr: u32, f: Field)
    ensures var r := FirstRecord(w, n, addr, extraAddr);
      && (n > 0 ==>
            && RecordBufferAddr(0) in r && r[RecordBufferAddr(0)] == addr
            && RecordExtraDataAddr(0) in r && r[RecordExtraDataAddr(0)] == extraAddr)
      && (f != RecordBufferAddr(0) && f != RecordExtraDataAddr(0) ==>
            (f in r <==> f in w) && (f in w ==> r[f] == w[f]))
  {
  }

  /** The header words both encoders write before describing the buffers. */
  function BufferHeader(w: map<Field, u32>, cmd: u32, session: Ptr, bai: BufferAddrInfo): map<Field, u32>
  {
    w[PacketType := cmd][SessionId := Hash32Ptr(session)][BufferSizeField := bai.bufferSize]
  }

  /** Size of a record-described packet: the fixed part less its one-word list, plus the records. */
  function RecordPacketSize(n: u32): u32
  {
    Mod32(Hfi.SizeofSessionSetBuffersPkt - 4 + n * Hfi.SizeofBufferInfo)
  }

  /** Size of a flat packet: the fixed part, which holds one address, plus `n - 1` more (in 32-bit arithmetic). */
  function FlatPacketSize(n: u32): u32
  {
    Mod32(Hfi.SizeofSessionSetBuffersPkt + 4 * Mod32(n - 1))
  }

  /** What `pkt_session_set_buffers` leaves in a packet that held `before`. */
  function SetBuffers(before: PacketView, session: Ptr, bai: BufferAddrInfo): Encoded
  {
    if session == NULL then Encoded(-EINVAL, before)
    else
      var w := BufferHeader(before.words, Hfi.CmdSessionSetBuffers, session, bai)
                 [MinBufferSize := bai.bufferSize][NumBuffers := bai.numBuffers];
      var body :=
        if IsOutputRole(bai.bufferType) then
          PacketView(RecordPacketSize(bai.numBuffers),
                     FirstRecord(w[ExtraDataSize := bai.extradataSize], bai.numBuffers,
                                 bai.deviceAddr, bai.extradataAddr))
        else
          PacketView(FlatPacketSize(bai.numBuffers),
                     FillAddrs(w[ExtraDataSize := 0], bai.numBuffers, bai.deviceAddr));
      var bt := Translate.ToHfiBuffer(bai.bufferType);
      Encoded(if bt == 0 then -EINVAL else 0, body.(words := body.words[BufferTypeField := bt]))
  }

  /** `pkt_session_set_buffers`. */
  method PktSessionSetBuffers(pkt: Packet, session: Ptr, bai: BufferAddrInfo) returns (ret: int)
    modifies pkt
    ensures Encoded(ret, pkt.View()) == SetBuffers(old(pkt.View()), session, bai)
  {
    if session == NULL {
      return -EINVAL;
    }
    pkt.words := pkt.words[PacketType := Hfi.CmdSessionSetBuffers];
    pkt.words := pkt.words[SessionId := Hash32Ptr(session)];
    pkt.words := pkt.words[BufferSizeField := bai.bufferSize];
    pkt.words := pkt.words[MinBufferSize := bai.bufferSize];
    pkt.words := pkt.words[NumBuffers := bai.numBuffers];
    var n := pkt.words[NumBuffers];
    if IsOutputRole(bai.bufferType) {
      pkt.words := pkt.words[ExtraDataSize := bai.extradataSize];
      pkt.size := RecordPacketSize(bai.numBuffers);
      ghost var w0 := pkt.words;
      var i: nat := 0;
      while i < n
        invariant i <= n
        invariant pkt.size == RecordPacketSize(bai.numBuffers)
        invariant pkt.words == FirstRecord(w0, i, bai.deviceAddr, bai.extradataAddr)
      {
        pkt.words := pkt.words[RecordBufferAddr(0) := bai.deviceAddr];
        pkt.words := pkt.words[RecordExtraDataAddr(0) := bai.extradataAddr];
        i := i + 1;
      }
    } else {
      pkt.words := pkt.words[ExtraDataSize := 0];
      pkt.size := FlatPacketSize(bai.numBuffers);
      ghost var w0 := pkt.words;
      var i: nat := 0;
      while i < n
        invariant i <= n
        invariant pkt.size == FlatPacketSize(bai.numBuffers)
        invariant pkt.words == FillAddrs(w0, i, bai.deviceAddr)
      {
        pkt.words := pkt.words[BufferInfo(i) := bai.deviceAddr];
        i := i + 1;
      }
    }
    pkt.words := pkt.words[BufferTypeField := Translate.ToHfiBuffer(bai.bufferType)];
    if pkt.words[BufferTypeField] == 0 {
      return -EINVAL;
    }
    return 0;
  }

  /**
   * What `pkt_session_release_buffers` leaves in a packet that held `before`:
   * no minimum size, the extradata size only cleared for flat lists, and the
   * caller's response request.
   */
  function ReleaseBuffers(before: PacketView, session: Ptr, bai: BufferAddrInfo): Encoded
  {
    if session == NULL then Encoded(-EINVAL, before)
    else
      var w := BufferHeader(before.words, Hfi.CmdSessionReleaseBuffers, session, bai)
                 [NumBuffers := bai.numBuffers];
      var body :=
        if IsOutputRole(bai.bufferType) then
          PacketView(RecordPacketSize(bai.numBuffers),
                     FirstRecord(w, bai.numBuffers, bai.deviceAddr, bai.extradataAddr))
        else
          PacketView(FlatPacketSize(bai.numBuffers),
                     FillAddrs(w, bai.numBuffers, bai.deviceAddr)[ExtraDataSize := 0]);
      var bt := Translate.ToHfiBuffer(bai.bufferType);
      Encoded(if bt == 0 then -EINVAL else 0,
              body.(words := body.words[ResponseReq := bai.responseRequired][BufferTypeField := bt]))
  }

  /** `pkt_session_release_buffers`. */
  method PktSessionReleaseBuffers(pkt: Packet, session: Ptr, bai: BufferAddrInfo) returns (ret: int)
    modifies pkt
    ensures Encoded(ret, pkt.View()) == ReleaseBuffers(old(pkt.View()), session, bai)
  {
    if session == NULL {
      return -EINVAL;
    }
    pkt.words := pkt.words[PacketType := Hfi.CmdSessionReleaseBuffers];
    pkt.words := pkt.words[SessionId := Hash32Ptr(session)];
    pkt.words := pkt.words[BufferSizeField := bai.bufferSize];
    pkt.words := pkt.words[NumBuffers := bai.numBuffers];
    var n := pkt.words[NumBuffers];
    if IsOutputRole(bai.bufferType) {
      ghost var w0 := pkt.words;
      var i: nat := 0;
      while i < n
        invariant i <= n
        invariant pkt.words == FirstRecord(w0, i, bai.deviceAddr, bai.extradataAddr)
      {
        pkt.words := pkt.words[RecordBufferAddr(0) := bai.deviceAddr];
        pkt.words := pkt.words[RecordExtraDataAddr(0) := bai.extradataAddr];
        i := i + 1;
      }
      pkt.size := RecordPacketSize(bai.numBuffers);
    } else {
      ghost var w0 := pkt.words;
      var i: nat := 0;
      while i < n
        invariant i <= n
        invariant pkt.words == FillAddrs(w0, i, bai.deviceAddr)
      {
        pkt.words := pkt.words[BufferInfo(i) := bai.deviceAddr];
        i := i + 1;
      }
      pkt.words := pkt.words[ExtraDataSize := 0];
      pkt.size := FlatPacketSize(bai.numBuffers);
    }
    pkt.words := pkt.words[ResponseReq := bai.responseRequired];
    pkt.words := pkt.words[BufferTypeField := Translate.ToHfiBuffer(bai.bufferType)];
    if pkt.words[BufferTypeField] == 0 {
      return -EINVAL;
    }
    return 0;
  }

  // Properties of the two encoders.

  /** Both encoders fail exactly for a NULL session or a buffer role the firmware has no name for. */
  lemma BuffersFailure(before: PacketView, session: Ptr, bai: BufferAddrInfo)
    ensures SetBuffers(before, session, bai).ret == ReleaseBuffers(before, session, bai).ret
    ensures SetBuffers(before, session, bai).ret == -EINVAL <==> session == NULL || bai.bufferType.BufOther?
    ensures SetBuffers(before, session, bai).ret != -EINVAL ==> SetBuffers(before, session, bai).ret == 0
  {
  }

  /** The buffer type word is written even when it is then rejected as unknown. */
  lemma BufferTypeWrittenOnFailure(before: PacketView, session: Ptr, bai: BufferAddrInfo)
    requires session != NULL && bai.bufferType.BufOther?
    ensures SetBuffers(before, session, bai).pkt.words[BufferTypeField] == 0
    ensures ReleaseBuffers(before, session, bai).pkt.words[BufferTypeField] == 0
    ensures var p := SetBuffers(before, session, bai).pkt;
      NumBuffers in p.words && p.words[NumBuffers] == bai.numBuffers
  {
    var w := BufferHeader(before.words, Hfi.CmdSessionSetBuffers, session, bai)
               [MinBufferSize := bai.bufferSize][NumBuffers := bai.numBuffers][ExtraDataSize := 0];
    FillAddrsContents(w, bai.numBuffers, bai.deviceAddr, NumBuffers);
  }

  /** When nothing wraps, a record packet is the fixed part less its one-word list plus one record per buffer. */
  lemma RecordSizeExact(n: u32)
    ensures Hfi.SizeofSessionSetBuffersPkt - 4 + n * Hfi.SizeofBufferInfo < TwoTo32 ==>
      RecordPacketSize(n) == Hfi.SizeofSessionSetBuffersPkt - 4 + n * Hfi.SizeofBufferInfo
  {
  }

  /**
   * When nothing wraps, a flat packet is the fixed part less its one-word
   * list plus one word per buffer. For `n == 0` this holds only because
   * `n - 1` wraps to 0xFFFF_FFFF and the sum then wraps back.
   */
  lemma FlatSizeExact(n: u32)
    ensures Hfi.SizeofSessionSetBuffersPkt - 4 + 4 * n < TwoTo32 ==>
      FlatPacketSize(n) == Hfi.SizeofSessionSetBuffersPkt - 4 + 4 * n
  {
    Mod32IsRemainder(n - 1);
    Mod32IsRemainder(Hfi.SizeofSessionSetBuffersPkt + 4 * Mod32(n - 1));
  }

  /** With no buffers both layouts come out one word short of the fixed part. */
  lemma EmptyListSize()
    ensures RecordPacketSize(0) == Hfi.SizeofSessionSetBuffersPkt - 4
    ensures FlatPacketSize(0) == Hfi.SizeofSessionSetBuffersPkt - 4
  {
    assert 4 * Mod32(-1) == 4 * TwoTo32 - 4;
  }

  /** Output buffers: record 0 describes the buffer, record 1 onwards is never written. */
  lemma {:induction false} OutputRecordsOnlyFirst(before: PacketView, session: Ptr, bai: BufferAddrInfo, k: nat)
    requires session != NULL && IsOutputRole(bai.bufferType) && k > 0
    ensures var p := SetBuffers(before, session, bai).pkt;
      && (bai.numBuffers > 0 ==>
            p.words[RecordBufferAddr(0)] == bai.deviceAddr && p.words[RecordExtraDataAddr(0)] == bai.extradataAddr)
      && (RecordBufferAddr(k) in p.words <==> RecordBufferAddr(k) in before.words)
      && (RecordBufferAddr(k) in before.words ==> p.words[RecordBufferAddr(k)] == before.words[RecordBufferAddr(k)])
      && p.words[ExtraDataSize] == bai.extradataSize
  {
  }

  /** Other buffers: the list holds the device address once per buffer and nothing past the last. */
  lemma {:induction false} FlatListContents(before: PacketView, session: Ptr, bai: BufferAddrInfo, k: nat)
    requires session != NULL && !IsOutputRole(bai.bufferType)
    ensures var p := SetBuffers(before, session, bai).pkt;
      && (k < bai.numBuffers ==> BufferInfo(k) in p.words && p.words[BufferInfo(k)] == bai.deviceAddr)
      && (k >= bai.numBuffers ==> (BufferInfo(k) in p.words <==> BufferInfo(k) in before.words))
      && (k >= bai.numBuffers && BufferInfo(k) in before.words ==>
            p.words[BufferInfo(k)] == before.words[BufferInfo(k)])
      && ExtraDataSize in p.words && p.words[ExtraDataSize] == 0
  {
    var w := BufferHeader(before.words, Hfi.CmdSessionSetBuffers, session, bai)
               [MinBufferSize := bai.bufferSize][NumBuffers := bai.numBuffers][ExtraDataSize := 0];
    FillAddrsContents(w, bai.numBuffers, bai.deviceAddr, BufferInfo(k));
    FillAddrsContents(w, bai.numBuffers, bai.deviceAddr, ExtraDataSize);
  }

  /** Release of an output buffer leaves the extradata size as it was; set always writes it. */
  lemma {:induction false} ReleaseKeepsExtradataSize(before: PacketView, session: Ptr, bai: BufferAddrInfo)
    requires session != NULL && IsOutputRole(bai.bufferType)
    ensures var p := ReleaseBuffers(before, session, bai).pkt;
      && (ExtraDataSize in p.words <==> ExtraDataSize in before.words)
      && (ExtraDataSize in before.words ==> p.words[ExtraDataSize] == before.words[ExtraDataSize])
      && MinBufferSize !in p.words - before.words.Keys
      && p.words[ResponseReq] == bai.responseRequired
  {
  }

  /** Set-buffers announces the buffer size as the minimum buffer size too, for both layouts. */
  lemma {:induction false} MinBufferSizeIsBufferSize(before: PacketView, session: Ptr, bai: BufferAddrInfo)
    requires session != NULL
    ensures var p := SetBuffers(before, session, bai).pkt;
      && MinBufferSize in p.words && BufferSizeField in p.words
      && p.words[MinBufferSize] == bai.bufferSize && p.words[BufferSizeField] == bai.bufferSize
  {
    var w := BufferHeader(before.words, Hfi.CmdSessionSetBuffers, session, bai)
               [MinBufferSize := bai.bufferSize][NumBuffers := bai.numBuffers][ExtraDataSize := 0];
    FillAddrsContents(w, bai.numBuffers, bai.deviceAddr, MinBufferSize);
    FillAddrsContents(w, bai.numBuffers, bai.deviceAddr, BufferSizeField);
  }

  /**
   * Release of other buffers: the list holds the device address once per
   * buffer and nothing past the last, and the extradata size is cleared.
   */
  lemma {:induction false} ReleaseFlatListContents(before: PacketView, session: Ptr, bai: BufferAddrInfo, k: nat)
    requires session != NULL && !IsOutputRole(bai.bufferType)
    ensures var p := ReleaseBuffers(before, session, bai).pkt;
      && (k < bai.numBuffers ==> BufferInfo(k) in p.words && p.words[BufferInfo(k)] == bai.deviceAddr)
      && (k >= bai.numBuffers ==> (BufferInfo(k) in p.words <==> BufferInfo(k) in before.words))
      && (k >= bai.numBuffers && BufferInfo(k) in before.words ==>
            p.words[BufferInfo(k)] == before.words[BufferInfo(k)])
      && ExtraDataSize in p.words && p.words[ExtraDataSize] == 0
  {
    var w := BufferHeader(before.words, Hfi.CmdSessionReleaseBuffers, session, bai)[NumBuffers := bai.numBuffers];
    FillAddrsContents(w, bai.numBuffers, bai.deviceAddr, BufferInfo(k));
  }

  /** Release of output buffers: record 0 describes the buffer, record 1 onwards is never written. */
  lemma ReleaseOutputRecordsOnlyFirst(before: PacketView, session: Ptr, bai: BufferAddrInfo, k: nat)
    requires session != NULL && IsOutputRole(bai.bufferType) && k > 0
    ensures var p := ReleaseBuffers(before, session, bai).pkt;
      && (bai.numBuffers > 0 ==>
            && RecordBufferAddr(0) in p.words && p.words[RecordBufferAddr(0)] == bai.deviceAddr
            && RecordExtraDataAddr(0) in p.words && p.words[RecordExtraDataAddr(0)] == bai.extradataAddr)
      && (RecordBufferAddr(k) in p.words <==> RecordBufferAddr(k) in before.words)
      && (RecordBufferAddr(k) in before.words ==> p.words[RecordBufferAddr(k)] == before.words[RecordBufferAddr(k)])
      && (RecordExtraDataAddr(k) in p.words <==> RecordExtraDataAddr(k) in before.words)
      && (RecordExtraDataAddr(k) in before.words ==>
            p.words[RecordExtraDataAddr(k)] == before.words[RecordExtraDataAddr(k)])
  {
  }
}

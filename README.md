# HFI packetization and OV5640 controls in Dafny

This project models two pieces of a Linux media driver tree and proves properties of the models.

**The HFI command packetizer** turns driver-level (HAL) requests into the fixed-layout command packets of the Venus video firmware. The model covers:
- the HAL-to-HFI translators, including the flag-table lookup `to_hfi_type`;
- every `pkt_sys_*`, `pkt_session_*` and `pkt_ssr_cmd` encoder;
- the ~100-case property dispatcher `pkt_session_set_property`;
- the operations table chosen by `hfi_get_pkt_ops`.

A packet is a `Packet` object with a `size` and a map from named packet fields to 32-bit words. Each encoder is a method that writes the header and the command's fields in place and returns 0 or a negative errno.

Each method is proved against a specification of its whole new state. Separate lemmas then state the rules:
- size formulas;
- which inputs are refused, and whether the packet was touched first;
- round trips such as the 64-bit timestamp split;
- the per-case payloads of the property dispatcher.

**The OV5640 camera sensor driver** is modelled over a register bus that answers reads with a byte or a negative status and passes on whatever status a write returns. The model covers:
- the mode table, the nearest-mode search, format selection and frame-size enumeration;
- the ordered register-array writer;
- the read-modify-write control handlers and their dispatch.

The sensor is a `Sensor` object. Its methods change the bus, the current mode, the crop and the format. They are proved against functions, and the lemmas about those functions state the bit-level effect of each control.

Modules:
- Base, Hfi, Hal: word arithmetic and the abstract firmware and HAL codes.
- Translate: the translators.
- Packet: the packet object.
- SysPackets, SessionPackets, Buffers: the command encoders.
- SetProperty, SetPropertyFacts, SetPropertyValues: the property dispatcher and facts about it.
- PktOps: the operations table.
- Ov5640Regs, Cci, Ov5640Modes, Ov5640: the sensor.

## Model

| member | source | states |
|---|---|---|
| Base.SplitJoin64 | drivers/media/platform/msm/vidc/hfi/hfi_packetization.c:562-563 | Joining the upper and lower 32-bit halves of a 64-bit timestamp gives back the timestamp. |
| Base.Log2 | drivers/media/platform/msm/vidc/hfi/hfi_packetization.c:85-92 | `ilog2` of a positive value is the exponent of the largest power of two not above it. |
| Base.Log2Pow2 | drivers/media/platform/msm/vidc/hfi/hfi_packetization.c:85-92 | `ilog2` of 2^k is k. |
| Base.Log2OfPow2 | drivers/media/platform/msm/vidc/hfi/hfi_packetization.c:85-92 | A power of two is 2 raised to its `ilog2`. |
| Translate.Place | drivers/media/platform/msm/vidc/hfi/hfi_packetization.c:20-69 | A designated initializer entry extends the table when needed, sets its slot, and leaves the other slots with their value or zero. |
| Translate.Designate | drivers/media/platform/msm/vidc/hfi/hfi_packetization.c:20-69 | A designated-initializer table is exactly long enough for its highest slot. |
| Translate.DesignateHolds | drivers/media/platform/msm/vidc/hfi/hfi_packetization.c:20-69 | The last initializer for a slot gives that slot's value. |
| Translate.DesignateGap | drivers/media/platform/msm/vidc/hfi/hfi_packetization.c:20-69 | A slot inside the table that no initializer names holds 0. |
| Translate.ToHfiType | drivers/media/platform/msm/vidc/hfi/hfi_packetization.c:83-113 | A nonzero value that is not a power of two gives -EINVAL. An unlisted property domain gives -ENOTSUPP, and so does a bit index past the table. Otherwise the result is the table entry at the bit index, and 0 looks up slot 0. |
| Translate.ListedFlagTranslates | drivers/media/platform/msm/vidc/hfi/hfi_packetization.c:20-113 | Every flag a table lists translates to its code. |
| Translate.UnlistedFlagIsZero | drivers/media/platform/msm/vidc/hfi/hfi_packetization.c:20-113 | A power of two inside a table that no entry names translates to 0. |
| Translate.ToHfiLayout | drivers/media/platform/msm/vidc/hfi/hfi_packetization.c:115-129 | Top-bottom maps to top-bottom; every other layout maps to the sequential layout. |
| Translate.ToHfiCodec | drivers/media/platform/msm/vidc/hfi/hfi_packetization.c:131-165 | The result is 0 exactly for an unrecognised codec. |
| Translate.MvcIsH264 | drivers/media/platform/msm/vidc/hfi/hfi_packetization.c:134-137 | MVC and H264 both translate to the H264 code. |
| Translate.ToHfiBuffer | drivers/media/platform/msm/vidc/hfi/hfi_packetization.c:334-364 | The result is the "none" code exactly for an unrecognised buffer role. |
| Translate.ToHfiExtradataIndex | drivers/media/platform/msm/vidc/hfi/hfi_packetization.c:366-413 | The result is 0 exactly for an unrecognised extradata kind; the indexed kinds give the index-extradata property. |
| Translate.ToHfiExtradataId | drivers/media/platform/msm/vidc/hfi/hfi_packetization.c:415-429 | The result is 0 exactly for an unrecognised kind; kinds that are not indexed fall back to the index translation. |
| Translate.ToHfiBufMode | drivers/media/platform/msm/vidc/hfi/hfi_packetization.c:431-446 | The result is 0 exactly for an unrecognised buffer mode. |
| Translate.ToHfiLtrMode | drivers/media/platform/msm/vidc/hfi/hfi_packetization.c:448-463 | Disable and every unrecognised mode map to the disable code. |
| Translate.ToHfiSsrType | drivers/media/platform/msm/vidc/hfi/hfi_packetization.c:1708-1724 | The hardware-watchdog trigger and every unrecognised trigger map to the watchdog code. |
| SysPackets.PktSysInit | drivers/media/platform/msm/vidc/hfi/hfi_packetization.c:167-174 | Returns 0. Sets the size, the packet type and the architecture word, and nothing else. |
| SysPackets.PktSysPcPrep | drivers/media/platform/msm/vidc/hfi/hfi_packetization.c:176-182 | Returns 0. Sets the size and the packet type only. |
| SysPackets.PktSysIdleIndicator | drivers/media/platform/msm/vidc/hfi/hfi_packetization.c:184-197 | Writes a one-property system packet with the idle-indicator tag and the enable word. |
| SysPackets.DebugModeFor | drivers/media/platform/msm/vidc/hfi/hfi_packetization.c:207-210 | A firmware debug mode above QDSS selects the queue mode; any other mode is sent as given. |
| SysPackets.PktSysDebugConfig | drivers/media/platform/msm/vidc/hfi/hfi_packetization.c:199-217 | Writes the debug-config property with the mode word and the selected debug mode. |
| SysPackets.PktSysCoverageConfig | drivers/media/platform/msm/vidc/hfi/hfi_packetization.c:219-232 | Writes the coverage tag, with the mode as the word after the tag. |
| SysPackets.PktSysSetResource | drivers/media/platform/msm/vidc/hfi/hfi_packetization.c:234-263 | A missing packet, header or value gives -EINVAL with the packet untouched. On-chip memory is written with its size and address. Any other resource gives -ENOTSUPP after the header. |
| SysPackets.PktSysReleaseResource | drivers/media/platform/msm/vidc/hfi/hfi_packetization.c:266-283 | On-chip memory is released with its type word; any other resource gives -ENOTSUPP after the header. |
| SysPackets.PktSysPing | drivers/media/platform/msm/vidc/hfi/hfi_packetization.c:285-291 | Returns 0. Sets the size and the packet type only. |
| SysPackets.PktSysPowerControl | drivers/media/platform/msm/vidc/hfi/hfi_packetization.c:319-332 | Writes the codec power-plane property with the enable word. |
| SysPackets.PktSsrCmd | drivers/media/platform/msm/vidc/hfi/hfi_packetization.c:1726-1734 | Writes the test-SSR packet with the translated trigger type. |
| SysPackets.PktSysImageVersion | drivers/media/platform/msm/vidc/hfi/hfi_packetization.c:1736-1744 | Writes a one-property get packet asking for the image version. |
| SessionPackets.PktSessionInit | drivers/media/platform/msm/vidc/hfi/hfi_packetization.c:293-307 | Writes the session header, domain and translated codec. Returns -EINVAL exactly for an unrecognised codec, after writing. |
| SessionPackets.PktSessionCmd | drivers/media/platform/msm/vidc/hfi/hfi_packetization.c:309-317 | Writes the given packet type (cut to 32 bits) and the session id. |
| SessionPackets.PktSessionEtbDecoder | drivers/media/platform/msm/vidc/hfi/hfi_packetization.c:552-574 | A null session or a zero device address gives -EINVAL with nothing written. Otherwise the frame words are written, the timestamp halves join back to the timestamp, and the input tag is the client data. |
| SessionPackets.PktSessionEtbEncoder | drivers/media/platform/msm/vidc/hfi/hfi_packetization.c:576-600 | As for the decoder, and additionally view 0 and the extradata buffer are written. |
| SessionPackets.StreamIdWords | drivers/media/platform/msm/vidc/hfi/hfi_packetization.c:613-616 | A stream id is written exactly for the two output roles. |
| SessionPackets.PktSessionFtb | drivers/media/platform/msm/vidc/hfi/hfi_packetization.c:602-626 | A null session, a missing frame or a zero device address gives -EINVAL untouched. Otherwise the fill-buffer words are written. |
| SessionPackets.PktSessionParseSeqHeader | drivers/media/platform/msm/vidc/hfi/hfi_packetization.c:628-642 | A null session or a missing header gives -EINVAL untouched. Otherwise the header length and buffer are written. |
| SessionPackets.PktSessionGetSeqHdr | drivers/media/platform/msm/vidc/hfi/hfi_packetization.c:645-659 | A null session or a missing header gives -EINVAL untouched. Otherwise the buffer length and buffer are written. |
| SessionPackets.FlushKind | drivers/media/platform/msm/vidc/hfi/hfi_packetization.c:670-686 | Only input, output, output2 and all have a flush code. |
| SessionPackets.PktSessionFlush | drivers/media/platform/msm/vidc/hfi/hfi_packetization.c:661-689 | A null session gives -EINVAL untouched. An unknown flush type gives -EINVAL after the header. Otherwise the flush code is written. |
| SessionPackets.GettableTag | drivers/media/platform/msm/vidc/hfi/hfi_packetization.c:700-714 | Only profile-level and buffer requirements can be asked for. |
| SessionPackets.PktSessionGetProperty | drivers/media/platform/msm/vidc/hfi/hfi_packetization.c:692-717 | A null session gives -EINVAL untouched. Any other property gives -ENOTSUPP after the header. The two gettable ones get their tag. |
| Buffers.FillAddrsContents | drivers/media/platform/msm/vidc/hfi/hfi_packetization.c:496-498 | The fill loop sets exactly slots 0..n-1 to the device address and keeps every other word. |
| Buffers.FirstRecord | drivers/media/platform/msm/vidc/hfi/hfi_packetization.c:489-492 | With no buffers, the record loop writes nothing. |
| Buffers.FirstRecordContents | drivers/media/platform/msm/vidc/hfi/hfi_packetization.c:487-492 | After one or more iterations, record 0 holds the device and extradata addresses. Every other word, record 1 onwards included, is as before, because the record pointer never advances. |
| Buffers.PktSessionSetBuffers | drivers/media/platform/msm/vidc/hfi/hfi_packetization.c:466-506 | The packet becomes exactly what the set-buffers specification gives for the old packet. |
| Buffers.MinBufferSizeIsBufferSize | drivers/media/platform/msm/vidc/hfi/hfi_packetization.c:477-478 | Set-buffers writes the buffer size as both the buffer size and the minimum buffer size, for every role. |
| Buffers.PktSessionReleaseBuffers | drivers/media/platform/msm/vidc/hfi/hfi_packetization.c:509-550 | The packet becomes exactly what the release-buffers specification gives for the old packet. |
| Buffers.BuffersFailure | drivers/media/platform/msm/vidc/hfi/hfi_packetization.c:472-503 | Both encoders fail alike, with -EINVAL exactly for a null session or an unrecognised buffer role, and return 0 otherwise. |
| Buffers.BufferTypeWrittenOnFailure | drivers/media/platform/msm/vidc/hfi/hfi_packetization.c:476-503 | An unrecognised role is refused only after the body is written: the buffer type word is 0 and the buffer count is set. |
| Buffers.RecordSizeExact | drivers/media/platform/msm/vidc/hfi/hfi_packetization.c:486-487 | For the output roles, when nothing wraps, the size is sizeof(pkt) - 4 + n * sizeof(buffer info). |
| Buffers.FlatSizeExact | drivers/media/platform/msm/vidc/hfi/hfi_packetization.c:495-496 | For the other roles, when nothing wraps, the size is the fixed part less its one-word list plus one word per buffer. This holds even for n = 0, where `n - 1` underflows and the sum wraps back. |
| Buffers.EmptyListSize | drivers/media/platform/msm/vidc/hfi/hfi_packetization.c:484-495 | With no buffers, both formulas give sizeof(pkt) - 4. |
| Buffers.OutputRecordsOnlyFirst | drivers/media/platform/msm/vidc/hfi/hfi_packetization.c:487-492 | The output-role loop writes only record 0, because the index never advances; the extradata size is copied. |
| Buffers.FlatListContents | drivers/media/platform/msm/vidc/hfi/hfi_packetization.c:493-499 | For the other roles, every slot below n holds the device address, the slots above keep their words, and the extradata size is 0. |
| Buffers.ReleaseFlatListContents | drivers/media/platform/msm/vidc/hfi/hfi_packetization.c:535-542 | Releasing other roles puts the device address in every slot below n. Slots above keep their words, and the extradata size is cleared. |
| Buffers.ReleaseKeepsExtradataSize | drivers/media/platform/msm/vidc/hfi/hfi_packetization.c:523-549 | Releasing output buffers leaves the extradata size as it was. The minimum buffer size is not newly written, and the response flag is copied. |
| Buffers.ReleaseOutputRecordsOnlyFirst | drivers/media/platform/msm/vidc/hfi/hfi_packetization.c:523-531 | Releasing output buffers writes record 0 with the device and extradata addresses when n > 0. Records 1 onwards keep their words. |
| SetProperty.PackQp | drivers/media/platform/msm/vidc/hfi/hfi_packetization.c:1207-1208 | A byte QP is packed into each of the three low bytes of the word and nothing above. |
| SetProperty.OutputOrderCode | drivers/media/platform/msm/vidc/hfi/hfi_packetization.c:871-888 | Only an unknown output order has no code. |
| SetProperty.DivxCode | drivers/media/platform/msm/vidc/hfi/hfi_packetization.c:952-972 | Only an unknown DivX format has no code. |
| SetProperty.RateControlCode | drivers/media/platform/msm/vidc/hfi/hfi_packetization.c:1089-1117 | Only an unknown rate control has no code. |
| SetProperty.DeblockCode | drivers/media/platform/msm/vidc/hfi/hfi_packetization.c:1142-1168 | Only an unknown deblocking mode has no code. |
| SetProperty.RotateCode | drivers/media/platform/msm/vidc/hfi/hfi_packetization.c:1289-1304 | Only an unknown rotation has no code. |
| SetProperty.FlipCode | drivers/media/platform/msm/vidc/hfi/hfi_packetization.c:1305-1323 | Only an unknown flip has no code. |
| SetProperty.IntraRefreshCode | drivers/media/platform/msm/vidc/hfi/hfi_packetization.c:1324-1358 | Only an unknown intra-refresh mode has no code. |
| SetProperty.MultiSliceCode | drivers/media/platform/msm/vidc/hfi/hfi_packetization.c:1359-1388 | Only an unknown multi-slice mode has no code. |
| SetProperty.ProfileWord | drivers/media/platform/msm/vidc/hfi/hfi_packetization.c:1052-1056 | The profile word is never 0 unless the HIGH code itself is 0: a translation that reads back as 0 becomes HIGH. |
| SetProperty.LevelWord | drivers/media/platform/msm/vidc/hfi/hfi_packetization.c:1051-1064 | The level word is never 0: 0 becomes 1, and any other level is kept. |
| SetProperty.PktSessionSetProperty | drivers/media/platform/msm/vidc/hfi/hfi_packetization.c:720-1706 | The packet and result become exactly what the property specification gives: -EINVAL untouched for a null session, otherwise the header followed by the case's words and growth. |
| SetPropertyFacts.EncodeResults | drivers/media/platform/msm/vidc/hfi/hfi_packetization.c:720-1706 | Every case returns 0, -EINVAL, -ERANGE or -ENOTSUPP. Each error occurs exactly for its own inputs. |
| SetPropertyFacts.EncodeStorage | drivers/media/platform/msm/vidc/hfi/hfi_packetization.c:726-1673 | A tag is written exactly for an encoded property, and no payload word overwrites it. For every property but extradata, the tag is its fixed wire tag. The packet grows by the tag word plus the payload on success. A refused case adds nothing, except VPE operations, which always grow. |
| SetPropertyFacts.DefaultCases | drivers/media/platform/msm/vidc/hfi/hfi_packetization.c:1675-1702 | The default arm catches buffer requirements, the CABAC model and every unknown property. |
| SetPropertyFacts.NotSupportedExactly | drivers/media/platform/msm/vidc/hfi/hfi_packetization.c:1675-1702 | -ENOTSUPP is returned exactly for the not-implemented list and the default, with nothing written. |
| SetPropertyFacts.IgnoredDoesNothing | drivers/media/platform/msm/vidc/hfi/hfi_packetization.c:737-741 | The properties the switch accepts without encoding return 0 and add nothing. |
| SetPropertyFacts.InvalidExactly | drivers/media/platform/msm/vidc/hfi/hfi_packetization.c:742-1388 | -EINVAL is returned exactly for an unrecognised buffer role in a buffer-typed case, or an unknown rotation, flip, extradata kind or buffer mode. |
| SetPropertyFacts.OutOfRangeExactly | drivers/media/platform/msm/vidc/hfi/hfi_packetization.c:1183-1213 | -ERANGE is returned exactly for a QP range with a bound above 0xff. |
| SetPropertyFacts.LayoutRespected | drivers/media/platform/msm/vidc/hfi/hfi_packetization.c:726-1673 | Every encoded case except extradata writes its fixed tag. On success it grows the packet by one tag word plus its payload. A refused case does not grow it, except VPE operations, which always grow. Extradata is stated by `ExtradataLayout`. |
| SetPropertyFacts.ExtradataLayout | drivers/media/platform/msm/vidc/hfi/hfi_packetization.c:1389-1408 | The tag is the translated extradata index, and the enable word is written. The id is written exactly for a known kind; an unknown kind gives -EINVAL. The packet grows by the tag word plus the extradata structure in both cases. |
| SetPropertyValues.PackedShiftsAreProduct | drivers/media/platform/msm/vidc/hfi/hfi_packetization.c:1207-1208 | On a 32-bit word, `q \| q << 8 \| q << 16` of a byte equals q * 0x10101. |
| SetPropertyValues.QpRangePacked | drivers/media/platform/msm/vidc/hfi/hfi_packetization.c:1183-1213 | An in-range QP range succeeds, each bound is packed into three lanes, and the layer id is copied. |
| SetPropertyValues.ProfileLevelFallback | drivers/media/platform/msm/vidc/hfi/hfi_packetization.c:1044-1070 | The case succeeds. Level 0 is sent as 1. The profile is sent translated, with HIGH in place of a word 0. |
| SetPropertyValues.ListedProfileSent | drivers/media/platform/msm/vidc/hfi/hfi_packetization.c:1044-1070 | A profile the table lists is sent as its HFI code. |
| SetPropertyValues.UnlistedProfileFallsBack | drivers/media/platform/msm/vidc/hfi/hfi_packetization.c:1044-1070 | A power of two whose slot is inside the profile table but unnamed translates to 0 and falls back to HIGH. |
| SetPropertyValues.InvalidProfileSentWrapped | drivers/media/platform/msm/vidc/hfi/hfi_packetization.c:1044-1070 | A profile that is not a power of two is sent as -EINVAL wrapped to 32 bits, not as HIGH. |
| SetPropertyValues.PastTableProfileSentWrapped | drivers/media/platform/msm/vidc/hfi/hfi_packetization.c:1044-1070 | A power of two past the end of the profile table is sent as -ENOTSUPP wrapped to 32 bits, not as HIGH. |
| SetPropertyValues.CabacModelWritten | drivers/media/platform/msm/vidc/hfi/hfi_packetization.c:1071-1088 | The translated entropy mode is written. The CABAC model is written exactly when that HFI value equals the HAL CABAC flag. |
| SetPropertyValues.EntropyWordsShape | drivers/media/platform/msm/vidc/hfi/hfi_packetization.c:1076-1086 | The entropy payload holds the mode; it holds the model exactly under the mixed-scheme comparison. |
| SetPropertyValues.CabacRequested | drivers/media/platform/msm/vidc/hfi/hfi_packetization.c:1071-1088 | Asking for CABAC sends the HFI CABAC code. The model follows only if the HFI and HAL CABAC numbers coincide. |
| SetPropertyValues.SingleWordLogged | drivers/media/platform/msm/vidc/hfi/hfi_packetization.c:871-1117 | Output order, DivX format and rate control succeed and grow by two words. A known value is written; an unknown one is logged and not written. |
| SetPropertyValues.ModeLogged | drivers/media/platform/msm/vidc/hfi/hfi_packetization.c:1142-1388 | Deblocking, intra refresh and multi-slice succeed. A known mode is written; an unknown one is left unwritten. |
| PktOps.DefaultBindsByName | drivers/media/platform/msm/vidc/hfi/hfi_packetization.c:1746-1770 | Every operation of `hfi_default` is bound to the encoder named after it. |
| PktOps.DefaultCoversEncoders | drivers/media/platform/msm/vidc/hfi/hfi_packetization.c:1746-1770 | Every encoder appears in `hfi_default`. |
| PktOps.DefaultTableInjective | drivers/media/platform/msm/vidc/hfi/hfi_packetization.c:1746-1770 | No two operations share an encoder. |
| PktOps.Venus3xOps | drivers/media/platform/msm/vidc/hfi/hfi_packetization.c:1772-1781 | The 3xx table binds every operation as the default table does. |
| PktOps.GetPktOps | drivers/media/platform/msm/vidc/hfi/hfi_packetization.c:1784-1799 | A table is returned exactly for legacy and 3xx packetization, and NULL otherwise. |
| PktOps.KnownTypesAgree | drivers/media/platform/msm/vidc/hfi/hfi_packetization.c:1772-1799 | Legacy and 3xx dispatch every operation to the same encoder. |
| Ov5640Regs.MirrorBits | drivers/media/i2c/ov5640.c:1209-1226 | hflip: a nonzero value sets the mirror bit, zero clears it, and every other bit is kept. |
| Ov5640Regs.FlipBits | drivers/media/i2c/ov5640.c:1228-1245 | vflip: zero sets both flip bits, a nonzero value clears them, and every other bit is kept. |
| Ov5640Regs.AecBits | drivers/media/i2c/ov5640.c:1015-1032 | AUTO exposure clears the manual bit, any other mode sets it, and every other bit is kept. |
| Ov5640Regs.AgcBits | drivers/media/i2c/ov5640.c:1034-1051 | Enabling auto gain clears the manual-gain bit, disabling sets it, and every other bit is kept. |
| Ov5640Regs.AwbBits | drivers/media/i2c/ov5640.c:1277-1294 | Auto white balance clears the manual bit, manual sets it, and every other bit is kept. |
| Ov5640Regs.PatternCode | drivers/media/i2c/ov5640.c:79-80 | The pattern code fits in the two pattern bits. |
| Ov5640Regs.TestPatternBits | drivers/media/i2c/ov5640.c:1247-1267 | A nonzero value writes its code into bits 0-1 and sets bit 7. Zero clears only bit 7. All other bits are kept. |
| Ov5640Regs.PatternMenu | drivers/media/i2c/ov5640.c:1269-1275 | Menu entries 1 to 4 select patterns 0 to 3, and the code repeats every four values. |
| Ov5640Regs.FlipsIdempotent | drivers/media/i2c/ov5640.c:1209-1245 | Repeating a flip leaves the register as once. |
| Ov5640Regs.ModesIdempotent | drivers/media/i2c/ov5640.c:1015-1051 | Repeating an exposure, gain or white-balance mode leaves the register as once. |
| Ov5640Regs.TestPatternIdempotent | drivers/media/i2c/ov5640.c:1247-1267 | Repeating a test pattern leaves the register as once. |
| Ov5640Regs.FlipsUndo | drivers/media/i2c/ov5640.c:1209-1245 | A flip followed by its opposite restores a register that started with the flip bits clear. |
| Ov5640Regs.SaturationValue | drivers/media/i2c/ov5640.c:1196-1202 | The byte written is value * 0x10 + 0x40 cut to 8 bits. The control's range -4..4 gives 0x00..0x80. |
| Cci.OrFailed | drivers/media/i2c/ov5640.c:1201-1202 | The OR of two statuses is negative exactly when one of them is. |
| Cci.ReadReg | drivers/media/i2c/ov5640.c:997-1013 | A failed read returns the transport's status; a good one returns 0 and the register's byte. |
| Cci.WriteReg | drivers/media/i2c/ov5640.c:984-995 | The write is sent and its status returned. The register takes the byte unless the status is negative, and no other register changes. |
| Cci.ReadModifyWrite | drivers/media/i2c/ov5640.c:1015-1032 | A failed read sends no write. The result is negative exactly when the read or the write failed, and only the one register can change. |
| Cci.FirstFailure | drivers/media/i2c/ov5640.c:1062-1069 | The index of the first setting whose write fails: every earlier write succeeds. |
| Cci.WriteArrayAllLand | drivers/media/i2c/ov5640.c:1053-1072 | With no failing write, every setting is sent in order. The result is the last write's status, or 0 when there are none. |
| Cci.WriteArrayStopsAtFirstFailure | drivers/media/i2c/ov5640.c:1053-1072 | The writes stop at the first failure. Everything up to and including it is sent, and its status is returned. |
| Cci.WriteArrayKeepsFaults | drivers/media/i2c/ov5640.c:1053-1072 | Writing an array does not change how the transport answers. |
| Cci.WriteArrayLastWriteWins | drivers/media/i2c/ov5640.c:1053-1072 | When all writes land, each register holds the last byte written to it; untouched registers keep their bytes. |
| Ov5640Modes.NearestMode | drivers/media/i2c/ov5640.c:1411-1426 | The largest mode no wider and no taller than the request, or mode 0 when none fits. |
| Ov5640Modes.FindNearestMode | drivers/media/i2c/ov5640.c:1411-1426 | The descending search returns exactly that mode. |
| Ov5640Modes.NearestUnique | drivers/media/i2c/ov5640.c:1411-1426 | Those two properties determine the selected mode. |
| Ov5640Modes.NearestMonotonic | drivers/media/i2c/ov5640.c:1411-1426 | A larger request never selects a smaller mode. |
| Ov5640Modes.ExactSizeSelectsMode | drivers/media/i2c/ov5640.c:911-933 | Requesting a mode's own size selects that mode. |
| Ov5640Modes.TableAscending | drivers/media/i2c/ov5640.c:911-933 | The modes grow strictly in both dimensions. |
| Ov5640Modes.EnumFrameSize | drivers/media/i2c/ov5640.c:1355-1368 | An index below `OV5640_MODE_MAX` reports that mode's size as both minimum and maximum. Any other index gives -EINVAL. |
| Ov5640Modes.FiveMegapixelNotEnumerated | drivers/media/i2c/ov5640.c:1355-1368 | The 5MP size is never enumerated, although requesting it selects the 5MP mode. |
| Ov5640Modes.EnumeratedSizeSelectsMode | drivers/media/i2c/ov5640.c:1355-1426 | Setting an enumerated size selects the mode it came from. |
| Ov5640.Hflip | drivers/media/i2c/ov5640.c:1209-1226 | Fails exactly when the read or write fails. On success the mirror bit follows the value, other bits are kept, and no other register changes. |
| Ov5640.Vflip | drivers/media/i2c/ov5640.c:1228-1245 | Fails exactly when the read or write fails. On success both flip bits are set for 0 and cleared otherwise, other bits are kept. |
| Ov5640.AecMode | drivers/media/i2c/ov5640.c:1015-1032 | Fails exactly when the read or write fails. On success the manual-exposure bit is clear exactly for AUTO. |
| Ov5640.AgcMode | drivers/media/i2c/ov5640.c:1034-1051 | Fails exactly when the read or write fails. On success the manual-gain bit is set exactly when auto gain is off. |
| Ov5640.Awb | drivers/media/i2c/ov5640.c:1277-1294 | Fails exactly when the read or write fails. On success the manual white-balance bit is set exactly for manual. |
| Ov5640.TestPattern | drivers/media/i2c/ov5640.c:1247-1267 | Fails exactly when the read or write fails. On success the pattern bits and enable bit follow the value. |
| Ov5640.Saturation | drivers/media/i2c/ov5640.c:1196-1207 | Both writes are always sent, U then V, with the saturation byte. Each register that accepted its write holds it, and nothing else changes. |
| Ov5640.SaturationStatus | drivers/media/i2c/ov5640.c:1201-1202 | The result is the OR of the two write statuses. |
| Ov5640.SaturationFails | drivers/media/i2c/ov5640.c:1201-1202 | The result is negative exactly when either write failed. |
| Ov5640.Control | drivers/media/i2c/ov5640.c:1296-1335 | An unknown control gives -EINVAL and touches nothing. |
| Ov5640.ControlTouchesOnlyItsRegister | drivers/media/i2c/ov5640.c:1308-1330 | A read-modify-write control changes only its own register, and sends nothing when the read fails. |
| Ov5640.ControlIdempotent | drivers/media/i2c/ov5640.c:1308-1330 | Applying such a control twice leaves its register as applying it once. |
| Ov5640.Sensor.constructor | drivers/media/i2c/ov5640.c:1542-1547 | A new sensor starts in 1080P. Its format is UYVY 1920x1080, which matches the mode, and its crop is still zeroed. |
| Ov5640.Sensor.UpdateRegister | drivers/media/i2c/ov5640.c:1015-1032 | Read, change and write back one register, as the read-modify-write specification gives. |
| Ov5640.Sensor.SetHflip | drivers/media/i2c/ov5640.c:1209-1226 | The bus and result become those of `Hflip`. |
| Ov5640.Sensor.SetVflip | drivers/media/i2c/ov5640.c:1228-1245 | The bus and result become those of `Vflip`. |
| Ov5640.Sensor.SetAecMode | drivers/media/i2c/ov5640.c:1015-1032 | The bus and result become those of `AecMode`. |
| Ov5640.Sensor.SetAgcMode | drivers/media/i2c/ov5640.c:1034-1051 | The bus and result become those of `AgcMode`. |
| Ov5640.Sensor.SetAwb | drivers/media/i2c/ov5640.c:1277-1294 | The bus and result become those of `Awb`. |
| Ov5640.Sensor.SetTestPattern | drivers/media/i2c/ov5640.c:1247-1267 | The bus and result become those of `TestPattern`. |
| Ov5640.Sensor.SetSaturation | drivers/media/i2c/ov5640.c:1196-1207 | The bus and result become those of `Saturation`. |
| Ov5640.Sensor.SetRegisterArray | drivers/media/i2c/ov5640.c:1053-1072 | The loop leaves the bus and result that the early-stopping array write gives. |
| Ov5640.Sensor.SCtrl | drivers/media/i2c/ov5640.c:1296-1335 | Powered off, it returns 0 with the bus unchanged. Otherwise it has the control's effect. |
| Ov5640.Sensor.SetFormat | drivers/media/i2c/ov5640.c:1428-1453 | Returns 0. The nearest mode becomes the current mode, and the crop and the format take its size. |

## Left out

- Logging (`dprintk`, `dev_err`, `dev_dbg`): it has no effect on packets or registers.
- `hash32_ptr` is an uninterpreted function of the pointer, and a pointer is an opaque value.
- The numeric values of the HFI and HAL codes, and the struct sizes, are abstract constants. Their headers are not part of this model.
- Hfi: every code the packetizer tests against 0 to detect "unknown" is assumed nonzero (typed `NonZeroU32`). The families are:
  - the codec codes (`CodecH264` to `CodecHevcHybrid`);
  - the buffer codes (`BufferInput` to `BufferInternalPersist1`);
  - the extradata property codes (`PropVdecMbQuantization` to `PropVencMbiDumping`);
  - the extradata ids `ExtradataAspectRatio`, `ExtradataInputCrop` and `ExtradataDigitalZoom`;
  - the buffer-mode codes `BufferModeStatic`, `BufferModeRing` and `BufferModeDynamic`.

  These contracts hold only under that assumption:
  - the "0 exactly for an unrecognised value" clauses of `Translate.ToHfiCodec`, `Translate.ToHfiBuffer`, `Translate.ToHfiExtradataIndex`, `Translate.ToHfiExtradataId` and `Translate.ToHfiBufMode`;
  - the -EINVAL clause of `SessionPackets.PktSessionInit`;
  - `Buffers.BuffersFailure`;
  - `SetPropertyFacts.InvalidExactly`, `SetPropertyFacts.EncodeResults` and `SetPropertyFacts.ExtradataLayout`.

  If the firmware header gave one of these codes the value 0, the driver would reject that known value as unknown.
- The `memcpy` payloads are copied as whole named words, not as byte layouts. Aliasing between overlapping packet structures is not modelled.
- The members of `struct hfi_profile_level` are taken to be u32 words. So `profile <= 0` is read as `profile == 0`, and a negative errno from the translator is stored wrapped.
- SetProperty.PktSessionSetProperty: it requires that the property data carries the fields its property kind reads. This is the C union's typing contract, which the C code cannot check.
- The final branch of each group of set_property cases is never reached; it returns the "not supported" effect only to close the match.
- The operations table is modelled by the names of the encoders it points to, not by function pointers.
- `vidc_fw_debug_mode` is a parameter of the debug-config encoder.
- OV5640 power sequencing: regulators, clocks, GPIOs, `s_power` and the sleeps. The powered flag is a constructor parameter of the sensor.
- The `power_lock` mutex: it exists for concurrency, which is not modelled.
- Probe, remove, device-tree parsing and V4L2 registration. The constructor models only the initial mode and format the probe sets.
- The I2C transport `msm_cci_ctrl_*` is an oracle inside the bus value: it holds per-register read faults and write statuses.
- The try-format and try-crop pads of `set_format` (`v4l2_subdev_get_try_*`) are foreign calls; only the active pad is modelled.
- The contents of the register-setting tables and the mode change that loads them.
- `V4L2_EXPOSURE_AUTO` is taken to be 0, its value in the V4L2 exposure menu.
- `HAL_BUFFER_NONE` is taken to be 0 (`Translate.BufferNone`): `to_hfi_buffer` returns it for an unknown role and the encoders test the result against 0.
- Ov5640.Sensor.SetFormat: the requested width and height are modelled as u32. The driver passes them through `int` parameters and compares them with u32 table entries, which converts them back unchanged.
- Ov5640.Sensor.SCtrl: the control value is an unbounded int. The handlers are only used with the ranges the control framework enforces, and saturation's `value * 0x10` is assumed not to overflow `s32`.

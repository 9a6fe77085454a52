/**
 * The system-scope encoders of the packetizer: each fills the caller's packet
 * in place and returns 0 or a negative error number.
 */
module SysPackets {
  import opened Base
  import opened Hal
  import opened Packet
  import Hfi
  import Translate

  /** `pkt_sys_init`. */
  method PktSysInit(pkt: Packet, archType: u32) returns (ret: int)
    modifies pkt
    ensures ret == 0
    ensures pkt.size == Hfi.SizeofSysInitPkt
    ensures pkt.words == old(pkt.words)[PacketType := Hfi.CmdSysInit][ArchType := archType]
  {
    pkt.words := pkt.words[PacketType := Hfi.CmdSysInit];
    pkt.size := Hfi.SizeofSysInitPkt;
    pkt.words := pkt.words[ArchType := archType];
    return 0;
  }

  /** `pkt_sys_pc_prep`: a bare header. */
  method PktSysPcPrep(pkt: Packet) returns (ret: int)
    modifies pkt
    ensures ret == 0
    ensures pkt.size == Hfi.SizeofSysPcPrepPkt
    ensures pkt.words == old(pkt.words)[PacketType := Hfi.CmdSysPcPrep]
  {
    pkt.words := pkt.words[PacketType := Hfi.CmdSysPcPrep];
    pkt.size := Hfi.SizeofSysPcPrepPkt;
    return 0;
  }

  /**
   * The packet every system set-property encoder produces: one property whose
   * tag is `tag` and whose payload occupies `payloadSize` bytes after the tag.
   */
  ghost predicate SysPropertyPacket(p: PacketView, old_: PacketView, tag: u32, payloadSize: int,
                                    payload: map<Field, u32>)
  {
    && p.size == Hfi.SizeofSysSetPropertyPkt + payloadSize + 4
    && p.words == old_.words[PacketType := Hfi.CmdSysSetProperty][NumProperties := 1]
                            [PropertyData(0) := tag] + payload
  }

  /** `pkt_sys_idle_indicator`. */
  method PktSysIdleIndicator(pkt: Packet, enable: u32) returns (ret: int)
    modifies pkt
    ensures ret == 0
    ensures SysPropertyPacket(pkt.View(), old(pkt.View()), Hfi.PropSysIdleIndicator,
                              Hfi.SizeofEnable, map[Member(Enable) := enable])
  {
    pkt.size := Hfi.SizeofSysSetPropertyPkt + Hfi.SizeofEnable + 4;
    pkt.words := pkt.words[PacketType := Hfi.CmdSysSetProperty];
    pkt.words := pkt.words[NumProperties := 1];
    pkt.words := pkt.words[PropertyData(0) := Hfi.PropSysIdleIndicator];
    pkt.words := pkt.words[Member(Enable) := enable];
    return 0;
  }

  /**
   * The debug mode the firmware is asked for: the global `vidc_fw_debug_mode`
   * when it does not exceed QDSS, the queue mode otherwise.
   */
  function DebugModeFor(fwDebugMode: int): (r: u32)
    ensures fwDebugMode > Hfi.DebugModeQdss ==> r == Hfi.DebugModeQueue
    ensures 0 <= fwDebugMode <= Hfi.DebugModeQdss ==> r == fwDebugMode
  {
    if fwDebugMode <= Hfi.DebugModeQdss then Mod32(fwDebugMode) else Hfi.DebugModeQueue
  }

  /** Writing two payload words one after the other adds a two-entry payload. */
  lemma TwoWordPayload(m: map<Field, u32>, f1: Field, w1: u32, f2: Field, w2: u32)
    requires f1 != f2
    ensures m[f1 := w1][f2 := w2] == m + map[f1 := w1, f2 := w2]
  {
  }

  /** `pkt_sys_debug_config`; `fwDebugMode` is the driver-wide `vidc_fw_debug_mode`. */
  method PktSysDebugConfig(pkt: Packet, mode: u32, fwDebugMode: int) returns (ret: int)
    modifies pkt
    ensures ret == 0
    ensures SysPropertyPacket(pkt.View(), old(pkt.View()), Hfi.PropSysDebugConfig,
                              Hfi.SizeofDebugConfig,
                              map[Member(DebugConfig) := mode,
                                  Member(DebugMode) := DebugModeFor(fwDebugMode)])
  {
    pkt.size := Hfi.SizeofSysSetPropertyPkt + Hfi.SizeofDebugConfig + 4;
    pkt.words := pkt.words[PacketType := Hfi.CmdSysSetProperty];
    pkt.words := pkt.words[NumProperties := 1];
    pkt.words := pkt.words[PropertyData(0) := Hfi.PropSysDebugConfig];
    pkt.words := pkt.words[Member(DebugConfig) := mode];
    pkt.words := pkt.words[Member(DebugMode) := Hfi.DebugModeQueue];
    if fwDebugMode <= Hfi.DebugModeQdss {
      pkt.words := pkt.words[Member(DebugMode) := Mod32(fwDebugMode)];
    }
    TwoWordPayload(old(pkt.words)[PacketType := Hfi.CmdSysSetProperty][NumProperties := 1]
                                 [PropertyData(0) := Hfi.PropSysDebugConfig],
                   Member(DebugConfig), mode, Member(DebugMode), DebugModeFor(fwDebugMode));
    return 0;
  }

  /** `pkt_sys_coverage_config`: the mode is the word right after the tag. */
  method PktSysCoverageConfig(pkt: Packet, mode: u32) returns (ret: int)
    modifies pkt
    ensures ret == 0
    ensures pkt.size == Hfi.SizeofSysSetPropertyPkt + 4
    ensures pkt.words == old(pkt.words)[PacketType := Hfi.CmdSysSetProperty][NumProperties := 1]
                           [PropertyData(0) := Hfi.PropSysConfigCoverage][PropertyData(1) := mode]
  {
    pkt.size := Hfi.SizeofSysSetPropertyPkt + 4;
    pkt.words := pkt.words[PacketType := Hfi.CmdSysSetProperty];
    pkt.words := pkt.words[NumProperties := 1];
    pkt.words := pkt.words[PropertyData(0) := Hfi.PropSysConfigCoverage];
    pkt.words := pkt.words[PropertyData(1) := mode];
    return 0;
  }

  /** Resource kinds the firmware is handed as on-chip memory. */
  predicate IsOnChipMemory(id: HalResourceId)
  {
    id == ResourceOcmem || id == ResourceVmem
  }

  /**
   * `pkt_sys_set_resource`: a NULL packet, header or value is rejected before
   * anything is written; an unknown resource kind is rejected after the header
   * words are written.
   */
  method PktSysSetResource(pkt: Packet?, hdr: Option<ResourceHdr>, value: Ptr) returns (ret: int)
    modifies pkt
    ensures pkt == null || hdr.None? || value == NULL ==> ret == -EINVAL
    ensures pkt != null && (hdr.None? || value == NULL) ==> pkt.View() == old(pkt.View())
    ensures pkt != null && hdr.Some? && value != NULL ==>
      var header := old(pkt.words)[PacketType := Hfi.CmdSysSetResource]
                                  [ResourceHandle := Hash32Ptr(hdr.value.resourceHandle)];
      if IsOnChipMemory(hdr.value.resourceId) then
        && ret == 0
        && pkt.size == Hfi.SizeofSysSetResourcePkt + Hfi.SizeofResourceOcmem - 4
        && pkt.words == header[ResourceType := Hfi.ResourceOcmem]
                              [ResourceMemSize := Mod32(hdr.value.size)][ResourceMem := Mod32(value)]
      else
        ret == -ENOTSUPP && pkt.size == Hfi.SizeofSysSetResourcePkt && pkt.words == header
  {
    if pkt == null || hdr.None? || value == NULL {
      return -EINVAL;
    }
    pkt.words := pkt.words[PacketType := Hfi.CmdSysSetResource];
    pkt.size := Hfi.SizeofSysSetResourcePkt;
    pkt.words := pkt.words[ResourceHandle := Hash32Ptr(hdr.value.resourceHandle)];
    match hdr.value.resourceId {
      case ResourceOcmem =>
      case ResourceVmem =>
      case ResourceOther(_) =>
        return -ENOTSUPP;
    }
    pkt.words := pkt.words[ResourceType := Hfi.ResourceOcmem];
    pkt.size := pkt.size + Hfi.SizeofResourceOcmem - 4;
    pkt.words := pkt.words[ResourceMemSize := Mod32(hdr.value.size)];
    pkt.words := pkt.words[ResourceMem := Mod32(value)];
    return 0;
  }

  /** `pkt_sys_release_resource`: as set-resource, without the NULL checks or the memory description. */
  method PktSysReleaseResource(pkt: Packet, hdr: ResourceHdr) returns (ret: int)
    modifies pkt
    ensures pkt.size == Hfi.SizeofSysReleaseResourcePkt
    ensures var header := old(pkt.words)[PacketType := Hfi.CmdSysReleaseResource]
                                        [ResourceHandle := Hash32Ptr(hdr.resourceHandle)];
      if IsOnChipMemory(hdr.resourceId) then
        ret == 0 && pkt.words == header[ResourceType := Hfi.ResourceOcmem]
      else
        ret == -ENOTSUPP && pkt.words == header
  {
    pkt.size := Hfi.SizeofSysReleaseResourcePkt;
    pkt.words := pkt.words[PacketType := Hfi.CmdSysReleaseResource];
    pkt.words := pkt.words[ResourceHandle := Hash32Ptr(hdr.resourceHandle)];
    match hdr.resourceId {
      case ResourceOcmem =>
        pkt.words := pkt.words[ResourceType := Hfi.ResourceOcmem];
      case ResourceVmem =>
        pkt.words := pkt.words[ResourceType := Hfi.ResourceOcmem];
      case ResourceOther(_) =>
        return -ENOTSUPP;
    }
    return 0;
  }

  /** `pkt_sys_ping`: a bare header. */
  method PktSysPing(pkt: Packet) returns (ret: int)
    modifies pkt
    ensures ret == 0
    ensures pkt.size == Hfi.SizeofSysPingPkt
    ensures pkt.words == old(pkt.words)[PacketType := Hfi.CmdSysPing]
  {
    pkt.size := Hfi.SizeofSysPingPkt;
    pkt.words := pkt.words[PacketType := Hfi.CmdSysPing];
    return 0;
  }

  /** `pkt_sys_power_control`. */
  method PktSysPowerControl(pkt: Packet, enable: u32) returns (ret: int)
    modifies pkt
    ensures ret == 0
    ensures SysPropertyPacket(pkt.View(), old(pkt.View()), Hfi.PropSysCodecPowerPlaneCtrl,
                              Hfi.SizeofEnable, map[Member(Enable) := enable])
  {
    pkt.size := Hfi.SizeofSysSetPropertyPkt + Hfi.SizeofEnable + 4;
    pkt.words := pkt.words[PacketType := Hfi.CmdSysSetProperty];
    pkt.words := pkt.words[NumProperties := 1];
    pkt.words := pkt.words[PropertyData(0) := Hfi.PropSysCodecPowerPlaneCtrl];
    pkt.words := pkt.words[Member(Enable) := enable];
    return 0;
  }

  /** `pkt_ssr_cmd`: asks the firmware to trigger a subsystem restart of the given kind. */
  method PktSsrCmd(t: HalSsrTrigger, pkt: Packet) returns (ret: int)
    modifies pkt
    ensures ret == 0
    ensures pkt.size == Hfi.SizeofSysTestSsrPkt
    ensures pkt.words == old(pkt.words)[PacketType := Hfi.CmdSysTestSsr]
                                       [TriggerType := Translate.ToHfiSsrType(t)]
  {
    pkt.size := Hfi.SizeofSysTestSsrPkt;
    pkt.words := pkt.words[PacketType := Hfi.CmdSysTestSsr];
    pkt.words := pkt.words[TriggerType := Translate.ToHfiSsrType(t)];
    return 0;
  }

  /** `pkt_sys_image_version`: a system get-property packet asking for the firmware image version. */
  method PktSysImageVersion(pkt: Packet) returns (ret: int)
    modifies pkt
    ensures ret == 0
    ensures pkt.size == Hfi.SizeofSysGetPropertyPkt
    ensures pkt.words == old(pkt.words)[PacketType := Hfi.CmdSysGetProperty][NumProperties := 1]
                                       [PropertyData(0) := Hfi.PropSysImageVersion]
  {
    pkt.size := Hfi.SizeofSysGetPropertyPkt;
    pkt.words := pkt.words[PacketType := Hfi.CmdSysGetProperty];
    pkt.words := pkt.words[NumProperties := 1];
    pkt.words := pkt.words[PropertyData(0) := Hfi.PropSysImageVersion];
    return 0;
  }
}

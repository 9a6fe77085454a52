/**
 * The packetization operations table: which encoder each operation of a
 * `struct hfi_packetization_ops` is bound to, and the table each
 * packetization type selects.
 */
module PktOps {
  import opened Base

  /** `enum hfi_packetization_type`, with room for values it does not name. */
  datatype PacketizationType = Legacy | Packetization3xx | TypeOther(value: int)

  /** The operations of a `struct hfi_packetization_ops`, one per member. */
  datatype Op =
    | SysInit | SysPcPrep | SysIdleIndicator | SysPowerControl | SysSetResource
    | SysDebugConfig | SysCoverageConfig | SysReleaseResource | SysPing | SysImageVersion
    | SsrCmd | SessionInit | SessionCmd | SessionSetBuffers | SessionReleaseBuffers
    | SessionEtbDecoder | SessionEtbEncoder | SessionFtb | SessionParseSeqHeader
    | SessionGetSeqHdr | SessionFlush | SessionGetProperty | SessionSetProperty

  /**
   * The encoders of the packetizer, by the name of the function each is; the
   * methods of the same names in SysPackets, SessionPackets, Buffers and
   * SetProperty model them.
   */
  datatype Encoder =
    | PktSysInit | PktSysPcPrep | PktSysIdleIndicator | PktSysPowerControl | PktSysSetResource
    | PktSysDebugConfig | PktSysCoverageConfig | PktSysReleaseResource | PktSysPing
    | PktSysImageVersion | PktSsrCmd | PktSessionInit | PktSessionCmd | PktSessionSetBuffers
    | PktSessionReleaseBuffers | PktSessionEtbDecoder | PktSessionEtbEncoder | PktSessionFtb
    | PktSessionParseSeqHeader | PktSessionGetSeqHdr | PktSessionFlush | PktSessionGetProperty
    | PktSessionSetProperty

  /** `struct hfi_packetization_ops`: the encoder each member points to. */
  datatype OpsTable = OpsTable(
    sysInit: Encoder, sysPcPrep: Encoder, sysIdleIndicator: Encoder, sysPowerControl: Encoder,
    sysSetResource: Encoder, sysDebugConfig: Encoder, sysCoverageConfig: Encoder,
    sysReleaseResource: Encoder, sysPing: Encoder, sysImageVersion: Encoder, ssrCmd: Encoder,
    sessionInit: Encoder, sessionCmd: Encoder, sessionSetBuffers: Encoder,
    sessionReleaseBuffers: Encoder, sessionEtbDecoder: Encoder, sessionEtbEncoder: Encoder,
    sessionFtb: Encoder, sessionParseSeqHeader: Encoder, sessionGetSeqHdr: Encoder,
    sessionFlush: Encoder, sessionGetProperty: Encoder, sessionSetProperty: Encoder)

  /** The member of table `t` for operation `op`. */
  function Bound(t: OpsTable, op: Op): Encoder
  {
    match op
    case SysInit => t.sysInit
    case SysPcPrep => t.sysPcPrep
    case SysIdleIndicator => t.sysIdleIndicator
    case SysPowerControl => t.sysPowerControl
    case SysSetResource => t.sysSetResource
    case SysDebugConfig => t.sysDebugConfig
    case SysCoverageConfig => t.sysCoverageConfig
    case SysReleaseResource => t.sysReleaseResource
    case SysPing => t.sysPing
    case SysImageVersion => t.sysImageVersion
    case SsrCmd => t.ssrCmd
    case SessionInit => t.sessionInit
    case SessionCmd => t.sessionCmd
    case SessionSetBuffers => t.sessionSetBuffers
    case SessionReleaseBuffers => t.sessionReleaseBuffers
    case SessionEtbDecoder => t.sessionEtbDecoder
    case SessionEtbEncoder => t.sessionEtbEncoder
    case SessionFtb => t.sessionFtb
    case SessionParseSeqHeader => t.sessionParseSeqHeader
    case SessionGetSeqHdr => t.sessionGetSeqHdr
    case SessionFlush => t.sessionFlush
    case SessionGetProperty => t.sessionGetProperty
    case SessionSetProperty => t.sessionSetProperty
  }

  /** `hfi_default`: every member points to the encoder of the same name. */
  const HfiDefault := OpsTable(
    PktSysInit, PktSysPcPrep, PktSysIdleIndicator, PktSysPowerControl, PktSysSetResource,
    PktSysDebugConfig, PktSysCoverageConfig, PktSysReleaseResource, PktSysPing,
    PktSysImageVersion, PktSsrCmd, PktSessionInit, PktSessionCmd, PktSessionSetBuffers,
    PktSessionReleaseBuffers, PktSessionEtbDecoder, PktSessionEtbEncoder, PktSessionFtb,
    PktSessionParseSeqHeader, PktSessionGetSeqHdr, PktSessionFlush, PktSessionGetProperty,
    PktSessionSetProperty)

  /** The operation whose member is named after encoder `e`. */
  function OpOf(e: Encoder): Op
  {
    match e
    case PktSysInit => SysInit
    case PktSysPcPrep => SysPcPrep
    case PktSysIdleIndicator => SysIdleIndicator
    case PktSysPowerControl => SysPowerControl
    case PktSysSetResource => SysSetResource
    case PktSysDebugConfig => SysDebugConfig
    case PktSysCoverageConfig => SysCoverageConfig
    case PktSysReleaseResource => SysReleaseResource
    case PktSysPing => SysPing
    case PktSysImageVersion => SysImageVersion
    case PktSsrCmd => SsrCmd
    case PktSessionInit => SessionInit
    case PktSessionCmd => SessionCmd
    case PktSessionSetBuffers => SessionSetBuffers
    case PktSessionReleaseBuffers => SessionReleaseBuffers
    case PktSessionEtbDecoder => SessionEtbDecoder
    case PktSessionEtbEncoder => SessionEtbEncoder
    case PktSessionFtb => SessionFtb
    case PktSessionParseSeqHeader => SessionParseSeqHeader
    case PktSessionGetSeqHdr => SessionGetSeqHdr
    case PktSessionFlush => SessionFlush
    case PktSessionGetProperty => SessionGetProperty
    case PktSessionSetProperty => SessionSetProperty
  }

  /** `hfi_default` binds every operation to the encoder named after it. */
  lemma DefaultBindsByName(op: Op)
    ensures OpOf(Bound(HfiDefault, op)) == op
  {
  }

  /** Every encoder is the member of `hfi_default` for the operation named after it. */
  lemma DefaultCoversEncoders(e: Encoder)
    ensures Bound(HfiDefault, OpOf(e)) == e
  {
  }

  /** No two operations of `hfi_default` share an encoder. */
  lemma DefaultTableInjective(op1: Op, op2: Op)
    ensures Bound(HfiDefault, op1) == Bound(HfiDefault, op2) ==> op1 == op2
  {
    DefaultBindsByName(op1);
    DefaultBindsByName(op2);
  }

  /** `get_venus_3_x_ops`: no operation is overridden, so it is the default table. */
  function Venus3xOps(): (t: OpsTable)
    ensures forall op :: Bound(t, op) == Bound(HfiDefault, op)
  {
    HfiDefault
  }

  /** `hfi_get_pkt_ops`: the default table for legacy packetization, the 3xx table for 3xx, and NULL otherwise. */
  function GetPktOps(t: PacketizationType): (r: Option<OpsTable>)
    ensures r.Some? <==> t == Legacy || t == Packetization3xx
    ensures t == Legacy ==> r == Some(HfiDefault)
    ensures t == Packetization3xx ==> r == Some(Venus3xOps())
  {
    match t
    case Legacy => Some(HfiDefault)
    case Packetization3xx => Some(Venus3xOps())
    case TypeOther(_) => None
  }

  /** Both known packetization types dispatch every operation to the same encoder. */
  lemma KnownTypesAgree(op: Op)
    ensures Bound(GetPktOps(Legacy).value, op) == Bound(GetPktOps(Packetization3xx).value, op)
  {
  }
}

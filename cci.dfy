/**
 * The sensor's register transport as the driver sees it: a read returns a
 * byte or a negative status, a write is sent and either lands or fails with
 * a negative status. Statuses are 32-bit two's-complement words.
 */
module Cci {
  import opened Ov5640Regs

  /** An `int` status as a 32-bit two's-complement word. */
  type Status = bv32

  /** A negative status: the sign bit is set. */
  predicate Failed(s: Status)
  {
    s & 0x8000_0000 != 0
  }

  /** The OR of two statuses is negative exactly when one of them is. */
  lemma OrFailed(s1: Status, s2: Status)
    ensures Failed(s1 | s2) <==> Failed(s1) || Failed(s2)
  {
  }

  /** -EINVAL as a 32-bit status. */
  const EinvalStatus: Status := 0xFFFF_FFEA

  /** One `struct reg_value`: a register and the byte to write to it. */
  datatype RegWrite = RegWrite(reg: Reg, val: bv8)

  /**
   * The transport and the sensor behind it: the register contents, every
   * write sent so far in order, what the transport returns for a read of a
   * register that fails, and what it returns for a write to each register
   * (0 when not listed).
   */
  datatype Bus = Bus(regs: map<Reg, bv8>, sent: seq<RegWrite>,
                     readFaults: map<Reg, Status>, writeResults: map<Reg, Status>)

  /** The byte a register holds (0 for one never written). */
  function Value(b: Bus, reg: Reg): bv8
  {
    if reg in b.regs then b.regs[reg] else 0
  }

  /** What the transport returns for a read of `reg`: a listed failing status, or 0. */
  function ReadStatus(b: Bus, reg: Reg): (s: Status)
    ensures Failed(s) <==> reg in b.readFaults && Failed(b.readFaults[reg])
    ensures !Failed(s) ==> s == 0
  {
    if reg in b.readFaults && Failed(b.readFaults[reg]) then b.readFaults[reg] else 0
  }

  /** What the transport returns for a write to `reg`. */
  function WriteResult(results: map<Reg, Status>, reg: Reg): Status
  {
    if reg in results then results[reg] else 0
  }

  /** What the transport returns for a write to `reg` on bus `b`. */
  function WriteStatus(b: Bus, reg: Reg): Status
  {
    WriteResult(b.writeResults, reg)
  }

  /**
   * `ov5640_read_reg`: a failed read returns the transport's status; one that
   * succeeds returns 0 and the byte the register holds.
   */
  function ReadReg(b: Bus, reg: Reg): (r: (Status, bv8))
    ensures Failed(r.0) <==> reg in b.readFaults && Failed(b.readFaults[reg])
    ensures Failed(r.0) ==> r.0 == b.readFaults[reg]
    ensures !Failed(r.0) ==> r == (0, Value(b, reg))
  {
    var s := ReadStatus(b, reg);
    if Failed(s) then (s, 0) else (0, Value(b, reg))
  }

  /**
   * `ov5640_write_reg`: the write is sent and its status returned; the
   * register takes the byte unless the status is negative.
   */
  function WriteReg(b: Bus, w: RegWrite): (r: (Bus, Status))
    ensures r.1 == WriteStatus(b, w.reg)
    ensures r.0.sent == b.sent + [w]
    ensures r.0.readFaults == b.readFaults && r.0.writeResults == b.writeResults
    ensures !Failed(r.1) ==> Value(r.0, w.reg) == w.val
    ensures Failed(r.1) ==> r.0.regs == b.regs
    ensures forall reg :: reg != w.reg ==> Value(r.0, reg) == Value(b, reg)
  {
    var s := WriteStatus(b, w.reg);
    (b.(regs := if Failed(s) then b.regs else b.regs[w.reg := w.val], sent := b.sent + [w]), s)
  }

  /**
   * Read-modify-write of one register, as every `ov5640_set_*` mode handler
   * does it: a failed read returns its status and sends nothing; otherwise
   * `val`, computed from the byte read, is written and the write's status is
   * returned. The result is negative exactly when the read or the write
   * failed, and no other register changes.
   */
  function ReadModifyWrite(b: Bus, reg: Reg, val: bv8): (r: (Bus, Status))
    ensures Failed(ReadStatus(b, reg)) ==> r == (b, ReadStatus(b, reg))
    ensures !Failed(ReadStatus(b, reg)) ==>
      r.1 == WriteStatus(b, reg) && r.0.sent == b.sent + [RegWrite(reg, val)]
    ensures Failed(r.1) <==> Failed(ReadStatus(b, reg)) || Failed(WriteStatus(b, reg))
    ensures !Failed(r.1) ==> Value(r.0, reg) == val
    ensures Failed(r.1) ==> r.0.regs == b.regs
    ensures forall other :: other != reg ==> Value(r.0, other) == Value(b, other)
    ensures r.0.readFaults == b.readFaults && r.0.writeResults == b.writeResults
  {
    var (s, _) := ReadReg(b, reg);
    if Failed(s) then (b, s) else WriteReg(b, RegWrite(reg, val))
  }

  /**
   * What `ov5640_set_register_array` does with `settings`: the writes in
   * order, up to and including the first that fails; the status is the last
   * write's, or 0 when there are none.
   */
  function WriteArray(b: Bus, settings: seq<RegWrite>): (Bus, Status)
    decreases |settings|
  {
    if settings == [] then (b, 0)
    else
      var (b', s) := WriteReg(b, settings[0]);
      if Failed(s) || |settings| == 1 then (b', s) else WriteArray(b', settings[1..])
  }

  /** The index of the first setting whose write fails, or the number of settings when none does. */
  function FirstFailure(results: map<Reg, Status>, settings: seq<RegWrite>): (n: nat)
    ensures n <= |settings|
    ensures forall k | 0 <= k < n :: !Failed(WriteResult(results, settings[k].reg))
    ensures n < |settings| ==> Failed(WriteResult(results, settings[n].reg))
    decreases |settings|
  {
    if settings == [] then 0
    else if Failed(WriteResult(results, settings[0].reg)) then 0
    else 1 + FirstFailure(results, settings[1..])
  }

  /** Writing a register array leaves the transport's behaviour as it was. */
  lemma {:induction false} WriteArrayKeepsFaults(b: Bus, settings: seq<RegWrite>)
    ensures WriteArray(b, settings).0.readFaults == b.readFaults
    ensures WriteArray(b, settings).0.writeResults == b.writeResults
    decreases |settings|
  {
    if settings != [] {
      var (b1, s1) := WriteReg(b, settings[0]);
      if !Failed(s1) && |settings| > 1 {
        WriteArrayKeepsFaults(b1, settings[1..]);
      }
    }
  }

  /**
   * A register array none of whose writes fails sends every setting in order
   * and returns the status of the last one, or 0 when it is empty.
   */
  lemma {:induction false} WriteArrayAllLand(b: Bus, settings: seq<RegWrite>)
    requires FirstFailure(b.writeResults, settings) == |settings|
    ensures WriteArray(b, settings).1 ==
      if settings == [] then 0 else WriteStatus(b, settings[|settings| - 1].reg)
    ensures WriteArray(b, settings).0.sent == b.sent + settings
    decreases |settings|
  {
    if |settings| > 1 {
      var w := settings[0];
      var b1 := WriteReg(b, w).0;
      assert WriteArray(b, settings) == WriteArray(b1, settings[1..]);
      WriteArrayAllLand(b1, settings[1..]);
      assert settings == [w] + settings[1..];
    }
  }

  /**
   * A register array is written in order up to its first failing write: every
   * setting before it is sent, and then that one, and the result is that
   * write's status.
   */
  lemma {:induction false} WriteArrayStopsAtFirstFailure(b: Bus, settings: seq<RegWrite>)
    requires FirstFailure(b.writeResults, settings) < |settings|
    ensures var n := FirstFailure(b.writeResults, settings);
      && WriteArray(b, settings).1 == WriteStatus(b, settings[n].reg)
      && WriteArray(b, settings).0.sent == b.sent + settings[..n + 1]
    decreases |settings|
  {
    var w := settings[0];
    var b1 := WriteReg(b, w).0;
    if Failed(WriteStatus(b, w.reg)) || |settings| == 1 {
      assert WriteArray(b, settings) == WriteReg(b, w);
      assert settings[..1] == [w];
    } else {
      assert WriteArray(b, settings) == WriteArray(b1, settings[1..]);
      WriteArrayStopsAtFirstFailure(b1, settings[1..]);
      var n' := FirstFailure(b.writeResults, settings[1..]);
      assert settings[..n' + 2] == [w] + settings[1..][..n' + 1];
    }
  }

  /** A register array whose writes all land leaves each written register holding the last byte written to it. */
  lemma {:induction false} WriteArrayLastWriteWins(b: Bus, settings: seq<RegWrite>, reg: Reg)
    requires FirstFailure(b.writeResults, settings) == |settings|
    ensures var b' := WriteArray(b, settings).0;
      Value(b', reg) == if exists k | 0 <= k < |settings| :: settings[k].reg == reg
                        then settings[LastIndexOf(settings, reg)].val else Value(b, reg)
    decreases |settings|
  {
    if |settings| == 1 {
      assert settings[0].reg == reg ==> LastIndexOf(settings, reg) == 0;
    } else if settings != [] {
      var b1 := WriteReg(b, settings[0]).0;
      assert WriteArray(b, settings).0 == WriteArray(b1, settings[1..]).0;
      assert forall k | 0 <= k < |settings[1..]| :: settings[1..][k] == settings[k + 1];
      WriteArrayLastWriteWins(b1, settings[1..], reg);
      if exists k | 0 <= k < |settings[1..]| :: settings[1..][k].reg == reg {
        var k :| 0 <= k < |settings[1..]| && settings[1..][k].reg == reg;
        assert settings[k + 1].reg == reg;
        LastIndexShift(settings, reg);
      } else if settings[0].reg == reg {
        forall k | 1 <= k < |settings| ensures settings[k].reg != reg {
          assert settings[k] == settings[1..][k - 1];
        }
        LastIndexFirst(settings, reg);
      }
    }
  }

  /** The index of the last setting for `reg`. */
  function LastIndexOf(settings: seq<RegWrite>, reg: Reg): (k: nat)
    requires exists k | 0 <= k < |settings| :: settings[k].reg == reg
    ensures k < |settings| && settings[k].reg == reg
    ensures forall j | k < j < |settings| :: settings[j].reg != reg
    decreases |settings|
  {
    if settings[|settings| - 1].reg == reg then |settings| - 1
    else
      var init := settings[..|settings| - 1];
      assert forall j | 0 <= j < |init| :: init[j] == settings[j];
      LastIndexOf(init, reg)
  }

  /** When a later setting names `reg`, the last one for `reg` lies in the tail. */
  lemma LastIndexShift(settings: seq<RegWrite>, reg: Reg)
    requires |settings| > 0
    requires exists k | 0 <= k < |settings[1..]| :: settings[1..][k].reg == reg
    ensures exists k | 0 <= k < |settings| :: settings[k].reg == reg
    ensures LastIndexOf(settings, reg) == 1 + LastIndexOf(settings[1..], reg)
  {
    var j := LastIndexOf(settings[1..], reg);
    assert settings[j + 1].reg == reg;
    assert forall m | 1 <= m < |settings| :: settings[m] == settings[1..][m - 1];
  }

  /** When only the first setting names `reg`, it is the last one for `reg`. */
  lemma LastIndexFirst(settings: seq<RegWrite>, reg: Reg)
    requires |settings| > 0 && settings[0].reg == reg
    requires forall k | 1 <= k < |settings| :: settings[k].reg != reg
    ensures LastIndexOf(settings, reg) == 0
  {
  }
}

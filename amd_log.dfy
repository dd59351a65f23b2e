/**
 * The logging paths of the deferred-error and thresholding interrupts
 * (`__log_error`, `_log_error_bank`, `_log_error_deferred`,
 * `log_error_deferred`, `log_and_reset_block` and the two handlers' loops),
 * as functions from a `Machine` — the register file and the machine-check
 * log — to the next one.  The per-CPU methods in `AmdMce` are proved
 * against these.
 */
module AmdLog {
  import opened Wrappers
  import opened McaRegs
  import opened AmdThreshold
  import opened AmdBlocks

  /** The fields of one `struct mce` record handed to `mce_log`. */
  datatype ErrRecord = ErrRecord(bank: nat, status: bv64, addr: bv64, misc: bv64, ipid: bv64, synd: bv64)

  /** What the logging paths change: the register file and the log. */
  datatype Machine = Machine(msrs: MsrFile, log: seq<ErrRecord>)

  /** `rdmsrq`: the 64-bit value of a register, zero when the read faults. */
  function Read64(m: MsrFile, a: u32): bv64
  {
    Value64(Read(m, a))
  }

  predicate HasBit(v: bv64, bit: bv64)
  {
    v & bit != 0
  }

  /**
   * `__log_error`: the record carries the status, the misc value and the
   * bank; the address only when ADDRV says it is valid; on SMCA parts the
   * IPID, and the syndrome when SYNDV says it is valid.
   */
  function ErrorRecord(smca: bool, m: MsrFile, bank: nat, status: bv64, addr: bv64, misc: bv64): ErrRecord
  {
    ErrRecord(
      bank, status,
      if HasBit(status, MCI_STATUS_ADDRV) then addr else 0,
      misc,
      if smca then Read64(m, SmcaIpid(bank)) else 0,
      if smca && HasBit(status, MCI_STATUS_SYNDV) then Read64(m, SmcaSynd(bank)) else 0)
  }

  /** A logging step's answer ("the logged error is deferred") and the machine after it. */
  datatype Logged = Logged(deferred: bool, mach: Machine)

  /**
   * `_log_error_bank`: a status register without VAL is left alone;
   * otherwise its error is logged (with the address register's value when
   * ADDRV is set) and the status register is cleared.
   */
  function LogErrorBank(smca: bool, mc: Machine, bank: nat, msrStat: u32, msrAddr: u32, misc: bv64): Logged
  {
    var status := Read64(mc.msrs, msrStat);
    if !HasBit(status, MCI_STATUS_VAL) then Logged(false, mc)
    else
      var addr := if HasBit(status, MCI_STATUS_ADDRV) then Read64(mc.msrs, msrAddr) else 0;
      Logged(
        HasBit(status, MCI_STATUS_DEFERRED),
        Machine(Write(mc.msrs, msrStat, Reg(0, 0)), mc.log + [ErrorRecord(smca, mc.msrs, bank, status, addr, misc)]))
  }

  /**
   * `_log_error_bank` returns true exactly for a valid deferred error; a
   * valid error is logged once, with its status and the given misc, and
   * its status register is cleared; an invalid one changes nothing.
   */
  lemma LogErrorBankEffect(smca: bool, mc: Machine, bank: nat, msrStat: u32, msrAddr: u32, misc: bv64)
    ensures (var status := Read64(mc.msrs, msrStat);
             var r := LogErrorBank(smca, mc, bank, msrStat, msrAddr, misc);
             && (r.deferred <==> HasBit(status, MCI_STATUS_VAL) && HasBit(status, MCI_STATUS_DEFERRED))
             && (!HasBit(status, MCI_STATUS_VAL) ==> r.mach == mc)
             && (HasBit(status, MCI_STATUS_VAL) ==>
                   && |r.mach.log| == |mc.log| + 1
                   && r.mach.log[..|mc.log|] == mc.log
                   && r.mach.log[|mc.log|].bank == bank
                   && r.mach.log[|mc.log|].status == status
                   && r.mach.log[|mc.log|].misc == misc
                   && r.mach.log[|mc.log|].addr == (if HasBit(status, MCI_STATUS_ADDRV) then Read64(mc.msrs, msrAddr) else 0)
                   && r.mach.msrs == Write(mc.msrs, msrStat, Reg(0, 0))))
  {
  }

  /**
   * `_log_error_deferred` with the misc value as the thresholding path
   * means it: the full 64 bits.  After a deferred error from MCA_STATUS an
   * SMCA part also clears MCA_DESTAT; a legacy part never touches it.
   */
  function LogErrorDeferred(smca: bool, mc: Machine, bank: nat, misc: bv64): Logged
  {
    var r := LogErrorBank(smca, mc, bank, McaMsrReg(smca, bank, Status), McaMsrReg(smca, bank, Addr), misc);
    if !r.deferred || !smca then r
    else Logged(true, r.mach.(msrs := Write(r.mach.msrs, SmcaDestat(bank), Reg(0, 0))))
  }

  /**
   * `_log_error_deferred` as written: its `misc` parameter is a `u32`, so the
   * 64-bit value `log_error_thresholding` passes keeps only its low word.
   */
  function LogErrorDeferredAsWritten(smca: bool, mc: Machine, bank: nat, misc: bv64): Logged
  {
    LogErrorDeferred(smca, mc, bank, misc & 0xFFFF_FFFF)
  }

  /**
   * `log_error_deferred`: MCA_DESTAT and MCA_DEADDR are consulted only when
   * the MCA_STATUS step reports no deferred error.
   */
  function LogDeferredBank(smca: bool, mc: Machine, bank: nat): Machine
  {
    var r := LogErrorDeferred(smca, mc, bank, 0);
    if r.deferred then r.mach
    else LogErrorBank(smca, r.mach, bank, SmcaDestat(bank), SmcaDeaddr(bank), 0).mach
  }

  /** `amd_deferred_error_interrupt` after its first `n` banks. */
  function DeferredScan(smca: bool, mc: Machine, n: nat): Machine
  {
    if n == 0 then mc else LogDeferredBank(smca, DeferredScan(smca, mc, n - 1), n - 1)
  }

  /** Neither register holds a valid error (a register that faults holds none). */
  predicate NoValidError(m: MsrFile, a: u32)
  {
    !HasBit(Read64(m, a), MCI_STATUS_VAL)
  }

  lemma ZeroHoldsNoError()
    ensures !HasBit(Value64(Reg(0, 0)), MCI_STATUS_VAL)
  {
  }

  /**
   * The three scenarios of `log_error_deferred`: a deferred error in
   * MCA_STATUS is logged alone (and on SMCA parts MCA_DESTAT is cleared
   * unread); otherwise MCA_DESTAT is checked for a valid error, on legacy
   * parts too.  Either way, afterwards neither register of the bank holds a
   * valid error.
   */
  lemma {:induction false} LogDeferredBankScenarios(smca: bool, mc: Machine, bank: nat)
    requires bank < MAX_NR_BANKS
    ensures (var st := Read64(mc.msrs, McaMsrReg(smca, bank, Status));
             var r := LogDeferredBank(smca, mc, bank);
             && (HasBit(st, MCI_STATUS_VAL) && HasBit(st, MCI_STATUS_DEFERRED) ==>
                   |r.log| == |mc.log| + 1
                   && (smca ==> NoValidError(r.msrs, SmcaDestat(bank))))
             && (!HasBit(st, MCI_STATUS_VAL) ==>
                   r == LogErrorBank(smca, mc, bank, SmcaDestat(bank), SmcaDeaddr(bank), 0).mach)
             && NoValidError(r.msrs, McaMsrReg(smca, bank, Status))
             && (smca || !(HasBit(st, MCI_STATUS_VAL) && HasBit(st, MCI_STATUS_DEFERRED)) ==>
                   NoValidError(r.msrs, SmcaDestat(bank))))
  {
    var stat, destat := McaMsrReg(smca, bank, Status), SmcaDestat(bank);
    assert stat != destat;
    ZeroHoldsNoError();
    LogErrorBankEffect(smca, mc, bank, stat, McaMsrReg(smca, bank, Addr), 0);
    var r1 := LogErrorDeferred(smca, mc, bank, 0);
    LogErrorBankEffect(smca, r1.mach, bank, destat, SmcaDeaddr(bank), 0);
  }

  /**
   * `log_and_reset_block`: a block whose register faults or has not
   * overflowed is left alone; otherwise the error behind the event is
   * logged with the block's MISC value and the block is reset (a plain
   * restart: no new offset, no limit change).
   */
  function LogAndResetBlock(smca: bool, mc: Machine, b: ThresholdBlock): Machine
  {
    var r := ReadSafe(mc.msrs, b.address);
    if r.None? || !DecodeMisc(r.value.hi).overflow then mc
    else
      var logged := LogErrorDeferred(smca, mc, b.bank, Value64(r.value)).mach;
      logged.(msrs := RestartBank(logged.msrs, true, ThreshRestart(b, false, None, 0)))
  }

  /**
   * What `log_error_thresholding` logs for an overflowed block as written:
   * the misc value of the record.
   */
  function ThresholdingMiscAsWritten(smca: bool, mc: Machine, bank: nat, misc: bv64): Option<bv64>
  {
    var r := LogErrorDeferredAsWritten(smca, mc, bank, misc);
    if |r.mach.log| == |mc.log| + 1 then Some(r.mach.log[|mc.log|].misc) else None
  }

  /**
   * As written, the record of a threshold event loses the high word of the
   * block's MISC register — the overflow bit and the error counter among
   * it: with a valid error in legacy bank 0 and an overflowed block, the
   * logged misc is zero instead of the register's value.
   */
  lemma ThresholdMiscTruncated()
    ensures (var mc := Machine(map[0x401 := Reg(0, 0x8000_0000), 0x403 := Reg(0, 0x0001_0000)], []);
             var misc := Value64(mc.msrs[0x403]);
             && DecodeMisc(mc.msrs[0x403].hi).overflow
             && ThresholdingMiscAsWritten(false, mc, 0, misc) == Some(0)
             && misc != 0)
  {
    var mc := Machine(map[0x401 := Reg(0, 0x8000_0000), 0x403 := Reg(0, 0x0001_0000)], []);
    assert McaMsrReg(false, 0, Status) == 0x401;
    LogErrorBankEffect(false, mc, 0, 0x401, McaMsrReg(false, 0, Addr), Value64(mc.msrs[0x403]) & 0xFFFF_FFFF);
  }

  /**
   * With the full 64-bit misc, the threshold event's record carries the
   * block's MISC register exactly, whenever MCA_STATUS holds a valid error.
   */
  lemma {:induction false} ThresholdingLogsFullMisc(smca: bool, mc: Machine, b: ThresholdBlock)
    requires b.address in mc.msrs && DecodeMisc(mc.msrs[b.address].hi).overflow
    requires HasBit(Read64(mc.msrs, McaMsrReg(smca, b.bank, Status)), MCI_STATUS_VAL)
    ensures |LogAndResetBlock(smca, mc, b).log| == |mc.log| + 1
    ensures LogAndResetBlock(smca, mc, b).log[|mc.log|].misc == Value64(mc.msrs[b.address])
  {
    LogErrorBankEffect(smca, mc, b.bank, McaMsrReg(smca, b.bank, Status), McaMsrReg(smca, b.bank, Addr), Value64(mc.msrs[b.address]));
  }

  /** `amd_threshold_interrupt`'s walk of one bank's list after its first `n` blocks, head first. */
  function ResetBlocks(smca: bool, mc: Machine, blocks: seq<SysfsBlock>, n: nat): Machine
    requires n <= |blocks|
  {
    if n == 0 then mc else LogAndResetBlock(smca, ResetBlocks(smca, mc, blocks, n - 1), blocks[n - 1].b)
  }

  /** Every bank of `bank_map` below `n` has its `threshold_bank`. */
  predicate BanksCover(tbs: seq<Option<ThresholdBank>>, bankMap: set<nat>, n: nat)
  {
    n <= |tbs| && forall bank: nat :: bank < n && bank in bankMap ==> tbs[bank].Some?
  }

  /** `amd_threshold_interrupt` after its first `n` banks: banks outside `bank_map` are skipped. */
  function ScanBanks(smca: bool, mc: Machine, tbs: seq<Option<ThresholdBank>>, bankMap: set<nat>, n: nat): Machine
    requires BanksCover(tbs, bankMap, n)
  {
    if n == 0 then mc
    else
      var prev := ScanBanks(smca, mc, tbs, bankMap, n - 1);
      if n - 1 !in bankMap then prev
      else ResetBlocks(smca, prev, tbs[n - 1].value.blocks, |tbs[n - 1].value.blocks|)
  }

  /** The register at `a`, if there is one, has no overflow pending. */
  predicate Quiet(m: MsrFile, a: u32)
  {
    a in m ==> !DecodeMisc(m[a].hi).overflow
  }

  lemma ZeroWriteKeepsQuiet(m: MsrFile, w: u32, a: u32)
    requires Quiet(m, a)
    ensures Quiet(Write(m, w, Reg(0, 0)), a)
  {
  }

  lemma {:induction false} LogErrorDeferredKeepsQuiet(smca: bool, mc: Machine, bank: nat, misc: bv64, a: u32)
    ensures Quiet(mc.msrs, a) ==> Quiet(LogErrorDeferred(smca, mc, bank, misc).mach.msrs, a)
    ensures LogErrorDeferred(smca, mc, bank, misc).mach.msrs.Keys == mc.msrs.Keys
  {
    var stat := McaMsrReg(smca, bank, Status);
    LogErrorBankEffect(smca, mc, bank, stat, McaMsrReg(smca, bank, Addr), misc);
    if Quiet(mc.msrs, a) {
      ZeroWriteKeepsQuiet(mc.msrs, stat, a);
      var r := LogErrorBank(smca, mc, bank, stat, McaMsrReg(smca, bank, Addr), misc);
      ZeroWriteKeepsQuiet(r.mach.msrs, SmcaDestat(bank), a);
    }
  }

  /**
   * `log_and_reset_block` leaves its block without a pending overflow and
   * keeps every register that had none in that state.
   */
  lemma {:induction false} LogAndResetQuiets(smca: bool, mc: Machine, b: ThresholdBlock, a: u32)
    requires Quiet(mc.msrs, a) || a == b.address
    ensures Quiet(LogAndResetBlock(smca, mc, b).msrs, a)
    ensures LogAndResetBlock(smca, mc, b).msrs.Keys == mc.msrs.Keys
  {
    var r := ReadSafe(mc.msrs, b.address);
    if r.Some? && DecodeMisc(r.value.hi).overflow {
      var misc := Value64(r.value);
      var logged := LogErrorDeferred(smca, mc, b.bank, misc).mach;
      var tr := ThreshRestart(b, false, None, 0);
      LogErrorDeferredKeepsQuiet(smca, mc, b.bank, misc, a);
      RestartBankEffect(logged.msrs, true, tr);
      if a == b.address && a in logged.msrs {
        RestartClearsOverflow(DecodeMisc(logged.msrs[a].hi), tr);
      }
    }
  }

  /** The blocks of `blocks` before `n` have no pending overflow. */
  predicate QuietBlocks(m: MsrFile, blocks: seq<SysfsBlock>, n: nat)
    requires n <= |blocks|
  {
    forall i :: 0 <= i < n ==> Quiet(m, blocks[i].b.address)
  }

  /**
   * After walking a bank's list no block of it has a pending overflow, and
   * no register that had none gains one.
   */
  lemma {:induction false} ResetBlocksQuiets(smca: bool, mc: Machine, blocks: seq<SysfsBlock>, n: nat)
    requires n <= |blocks|
    ensures QuietBlocks(ResetBlocks(smca, mc, blocks, n).msrs, blocks, n)
    ensures forall a: u32 :: Quiet(mc.msrs, a) ==> Quiet(ResetBlocks(smca, mc, blocks, n).msrs, a)
  {
    if n > 0 {
      ResetBlocksQuiets(smca, mc, blocks, n - 1);
      var prev := ResetBlocks(smca, mc, blocks, n - 1);
      var b := blocks[n - 1].b;
      forall a: u32 | Quiet(prev.msrs, a) || a == b.address
        ensures Quiet(LogAndResetBlock(smca, prev, b).msrs, a)
      {
        LogAndResetQuiets(smca, prev, b, a);
      }
    }
  }

  /** Every block of every mapped bank below `n` has no pending overflow. */
  predicate QuietBanks(m: MsrFile, tbs: seq<Option<ThresholdBank>>, bankMap: set<nat>, n: nat)
    requires BanksCover(tbs, bankMap, n)
  {
    forall bank: nat :: bank < n && bank in bankMap ==> QuietBlocks(m, tbs[bank].value.blocks, |tbs[bank].value.blocks|)
  }

  /**
   * The threshold interrupt services every overflow: afterwards no block of
   * a bank in `bank_map` has its overflow bit set.
   */
  lemma {:induction false} ScanBanksQuiets(smca: bool, mc: Machine, tbs: seq<Option<ThresholdBank>>, bankMap: set<nat>, n: nat)
    requires BanksCover(tbs, bankMap, n)
    ensures QuietBanks(ScanBanks(smca, mc, tbs, bankMap, n).msrs, tbs, bankMap, n)
  {
    if n > 0 {
      assert BanksCover(tbs, bankMap, n - 1);
      ScanBanksQuiets(smca, mc, tbs, bankMap, n - 1);
      var prev := ScanBanks(smca, mc, tbs, bankMap, n - 1);
      if n - 1 in bankMap {
        var blocks := tbs[n - 1].value.blocks;
        ResetBlocksQuiets(smca, prev, blocks, |blocks|);
        var next := ResetBlocks(smca, prev, blocks, |blocks|);
        forall bank: nat | bank < n && bank in bankMap
          ensures QuietBlocks(next.msrs, tbs[bank].value.blocks, |tbs[bank].value.blocks|)
        {
          if bank < n - 1 {
            var bs := tbs[bank].value.blocks;
            forall i | 0 <= i < |bs|
              ensures Quiet(next.msrs, bs[i].b.address)
            {
              assert Quiet(prev.msrs, bs[i].b.address);
            }
          }
        }
      }
    }
  }
}

/**
 * The error-threshold counter kept in the high half of each MCA_MISC register,
 * and the reservation of the local-APIC interrupt offsets that thresholding and
 * deferred errors use.
 *
 * The high word of a thresholding MISC register is handled as its fields
 * (`MiscHi`); `DecodeMisc`/`EncodeMisc` relate them to the 32-bit word, bit
 * for bit as the source's `MASK_*_HI` constants place them.  The counter is
 * preset to `THRESHOLD_MAX - limit` and overflows after `limit` further errors.
 */
module AmdThreshold {
  import opened Wrappers
  import opened McaRegs

  const NR_BLOCKS: nat := 5

  const THRESHOLD_MAX: bv12 := 0xFFF

  /** `INT_TYPE_APIC`: the value of the IntType field (bits 18:17) that selects APIC delivery. */
  const INT_TYPE_APIC: bv2 := 1

  /** `MASK_BLKPTR_LO`: the block pointer, bits 31:24 of the low word of MISC0. */
  const MASK_BLKPTR_LO: bv32 := 0xFF00_0000

  /**
   * The fields of a MISC high word: VALID (31), CNTP (30), LOCKED (29),
   * IntP (28), bits 27:24, the LVT offset (23:20), COUNT_EN (19),
   * IntType (18:17), OVERFLOW (16), bits 15:12 and the error counter (11:0).
   */
  datatype MiscHi = MiscHi(
    valid: bool, cntp: bool, locked: bool, intp: bool, bits24: bv4,
    lvtOff: bv4, countEn: bool, intType: bv2, overflow: bool, bits12: bv4,
    count: bv12)

  /**
   * A block's threshold limit.  The source keeps it in a `u16`, but every
   * assignment either sets THRESHOLD_MAX or clamps into [1, THRESHOLD_MAX],
   * so 12 bits hold it exactly.
   */
  type Limit = x: bv12 | 1 <= x witness 0xFFF

  /**
   * An APIC extended-LVT offset as the source's `int` holds it: -1 (`None`)
   * before one is reserved, else a 4-bit offset read from a register field.
   */
  type Offset = Option<bv4>

  /** The `old_limit` of a restart: zero when no limit change is requested, else a previous limit. */
  type OldLimit = bv12

  /** The counter value a reset presets: `THRESHOLD_MAX - limit`, so that `limit` errors overflow it. */
  function Preset(limit: Limit): bv12
  {
    THRESHOLD_MAX - limit
  }

  /** One `struct threshold_block`: a thresholding MISC register of one bank. */
  datatype ThresholdBlock = ThresholdBlock(
    block: nat,
    bank: nat,
    cpu: nat,
    address: u32,
    interruptEnable: bool,
    interruptCapable: bool,
    thresholdLimit: Limit)

  /**
   * `struct thresh_restart`: the three modes of a restart are init
   * (`setLvtOff`), a limit change (`oldLimit != 0`) and a plain reset.
   */
  datatype ThreshRestart = ThreshRestart(b: ThresholdBlock, setLvtOff: bool, lvtOff: Offset, oldLimit: OldLimit)

  /** `lvt_interrupt_supported`: bank 4 always, otherwise the IntP bit. */
  predicate LvtInterruptSupported(bank: nat, hi: bv32)
  {
    bank == 4 || DecodeMisc(hi).intp
  }

  /** `lvt_off_valid`: the reserved APIC offset must be non-negative and equal the MSR's field. */
  predicate LvtOffValid(apic: Offset, m: MiscHi)
  {
    apic.Some? && apic.value == m.lvtOff
  }

  /** Whether a restart presets the counter: at init and after an overflow. */
  predicate Resets(m: MiscHi, tr: ThreshRestart)
  {
    m.overflow || tr.setLvtOff
  }

  /**
   * The counter after a limit change: moved by `old_limit - limit` and masked
   * to 12 bits (`new_count & THRESHOLD_MAX`).
   */
  function ShiftCount(count: bv12, oldLimit: Limit, limit: Limit): bv12
  {
    count + (oldLimit - limit)
  }

  /**
   * A limit change does not lose the errors counted so far: the shifted
   * counter (`ShiftCount`) minus the new preset equals the old counter minus
   * the old preset.
   */
  lemma LimitChangeKeepsErrorsCounted(count: bv12, oldLimit: Limit, limit: Limit)
    ensures (count + (oldLimit - limit)) - (THRESHOLD_MAX - limit) == count - (THRESHOLD_MAX - oldLimit)
  {
  }

  /** The counter step of `threshold_restart_bank`: reset, limit change or nothing. */
  function RestartCount(m: MiscHi, tr: ThreshRestart): MiscHi
  {
    if Resets(m, tr) then m.(count := Preset(tr.b.thresholdLimit), overflow := false)
    else if tr.oldLimit != 0 then m.(count := ShiftCount(m.count, tr.oldLimit, tr.b.thresholdLimit))
    else m
  }

  /**
   * The LVT-offset step of an init restart: when `lvt_off_valid` accepts the
   * reserved offset, the field is rewritten with it.  Validity means the field
   * already holds that offset, so the rewrite never changes anything.
   */
  function RestartLvtOff(m: MiscHi, tr: ThreshRestart): (m': MiscHi)
    ensures m' == m
  {
    if tr.setLvtOff && LvtOffValid(tr.lvtOff, m) then m.(lvtOff := tr.lvtOff.value) else m
  }

  /** The interrupt delivery a restart programs: APIC exactly for a capable, enabled block. */
  function IntTypeFor(b: ThresholdBlock): bv2
  {
    if b.interruptCapable && b.interruptEnable then INT_TYPE_APIC else 0
  }

  /**
   * The interrupt step: IntType cleared, then for a capable block the LVT
   * offset and APIC delivery.  Its only effect is on IntType.
   */
  function RestartInterrupt(m: MiscHi, tr: ThreshRestart): (r: MiscHi)
    ensures r == m.(intType := IntTypeFor(tr.b))
  {
    if !tr.b.interruptCapable then m.(intType := 0)
    else if tr.b.interruptEnable then RestartLvtOff(m.(intType := 0), tr).(intType := INT_TYPE_APIC)
    else RestartLvtOff(m.(intType := 0), tr)
  }

  /** `threshold_restart_bank` on the fields of the high word: counter, interrupt type, then COUNT_EN. */
  function RestartMisc(m: MiscHi, tr: ThreshRestart): MiscHi
  {
    RestartInterrupt(RestartCount(m, tr), tr).(countEn := true)
  }

  /** Init, or the counter overflowed: the counter restarts at `THRESHOLD_MAX - limit` and overflow is cleared. */
  lemma {:induction false} RestartResetsCounter(m: MiscHi, tr: ThreshRestart)
    requires Resets(m, tr)
    ensures RestartMisc(m, tr).count == Preset(tr.b.thresholdLimit)
    ensures !RestartMisc(m, tr).overflow
  {
    assert RestartCount(m, tr) == m.(count := Preset(tr.b.thresholdLimit), overflow := false);
  }

  /**
   * A limit change moves the counter by `old_limit - new_limit`, in the 12-bit
   * field: the result is masked, not clamped.
   */
  lemma {:induction false} RestartAdjustsCounter(m: MiscHi, tr: ThreshRestart)
    requires !Resets(m, tr) && tr.oldLimit != 0
    ensures RestartMisc(m, tr).count == ShiftCount(m.count, tr.oldLimit, tr.b.thresholdLimit)
    ensures !RestartMisc(m, tr).overflow
  {
    assert RestartCount(m, tr) == m.(count := ShiftCount(m.count, tr.oldLimit, tr.b.thresholdLimit));
  }

  /** A plain reset without overflow leaves the counter as it was. */
  lemma {:induction false} RestartKeepsCounter(m: MiscHi, tr: ThreshRestart)
    requires !Resets(m, tr) && tr.oldLimit == 0
    ensures RestartMisc(m, tr).count == m.count
    ensures !RestartMisc(m, tr).overflow
  {
    assert RestartCount(m, tr) == m;
  }

  /**
   * Every restart enables counting, and selects APIC delivery exactly for a
   * capable, enabled block: a block that cannot interrupt never gets it.
   */
  lemma {:induction false} RestartInterruptType(m: MiscHi, tr: ThreshRestart)
    ensures RestartMisc(m, tr).countEn
    ensures RestartMisc(m, tr).intType == (if tr.b.interruptCapable && tr.b.interruptEnable then INT_TYPE_APIC else 0)
  {
    assert RestartMisc(m, tr) == RestartCount(m, tr).(intType := IntTypeFor(tr.b), countEn := true);
  }

  /**
   * No field outside the counter, overflow, IntType and COUNT_EN changes; in
   * particular the LVT offset keeps the value it had.
   */
  lemma {:induction false} RestartKeepsOtherFields(m: MiscHi, tr: ThreshRestart)
    ensures RestartMisc(m, tr).(count := 0, overflow := false, intType := 0, countEn := false)
              == m.(count := 0, overflow := false, intType := 0, countEn := false)
  {
    var c := RestartCount(m, tr);
    if Resets(m, tr) {
      assert c == m.(count := Preset(tr.b.thresholdLimit), overflow := false);
    } else if tr.oldLimit != 0 {
      assert c == m.(count := ShiftCount(m.count, tr.oldLimit, tr.b.thresholdLimit));
    } else {
      assert c == m;
    }
    assert RestartMisc(m, tr) == c.(intType := IntTypeFor(tr.b), countEn := true);
  }

  /** The errors counted since the counter was last preset for `limit`, modulo the 12-bit field. */
  function ErrorsCounted(count: bv12, limit: Limit): bv12
  {
    count - Preset(limit)
  }

  /**
   * `show_error_count`: the counter minus its preset, computed in the
   * unsigned 32-bit arithmetic of the source.
   */
  function ShowErrorCount(count: bv12, limit: Limit): bv32
  {
    (count as bv32) - (Preset(limit) as bv32)
  }

  /**
   * While the counter is at or above its preset (no more than `limit` errors
   * since the reset), the value shown is the number of errors counted.
   */
  lemma {:induction false} ShowErrorCountIsErrorsCounted(count: bv12, limit: Limit)
    requires count >= Preset(limit)
    ensures ShowErrorCount(count, limit) == ErrorsCounted(count, limit) as bv32
  {
    SubWiden(count, Preset(limit));
  }

  lemma SubWiden(c: bv12, p: bv12)
    requires c >= p
    ensures (c as bv32) - (p as bv32) == (c - p) as bv32
  {
  }

  /**
   * A counter just preset (by a restart that resets it, see
   * `RestartResetsCounter`) has counted nothing and shows zero.
   */
  lemma PresetCountsNothing(limit: Limit)
    ensures ErrorsCounted(Preset(limit), limit) == 0
    ensures ShowErrorCount(Preset(limit), limit) == 0
  {
  }

  /** `store_threshold_limit`'s clamp of the parsed `unsigned long` into [1, THRESHOLD_MAX]. */
  function ClampLimit(n: bv64): (r: Limit)
    ensures 1 <= n <= 0xFFF ==> r as bv64 == n
    ensures n > 0xFFF ==> r == 0xFFF
    ensures n == 0 ==> r == 1
  {
    if n > 0xFFF then 0xFFF
    else if n < 1 then 1
    else n as bv12
  }

  /**
   * `setup_APIC_mce_threshold` / `setup_APIC_deferred_error`: once an offset is
   * reserved it is kept; otherwise the candidate read from the hardware is
   * taken when `setup_APIC_eilvt` accepts it (`accepted`).
   */
  function Reserve(reserved: Offset, candidate: bv4, accepted: bool): (r: Offset)
    ensures reserved.Some? ==> r == reserved
    ensures reserved.None? ==> (r == Some(candidate) <==> accepted)
    ensures reserved.None? && !accepted ==> r.None?
  {
    if reserved.None? && accepted then Some(candidate) else reserved
  }

  /** A reservation that succeeded is never undone or replaced by a later call, whatever the hardware says. */
  lemma {:induction false} ReserveIsSticky(reserved: Offset, candidate: bv4, accepted: bool, candidate2: bv4, accepted2: bool)
    requires Reserve(reserved, candidate, accepted).Some?
    ensures Reserve(Reserve(reserved, candidate, accepted), candidate2, accepted2) == Reserve(reserved, candidate, accepted)
  {
  }

  function Flag(b: bool, mask: bv32): bv32
  {
    if b then mask else 0
  }

  /** The fields of a high word, each under its `MASK_*_HI` mask. */
  function DecodeMisc(hi: bv32): MiscHi
  {
    MiscHi(
      hi & 0x8000_0000 != 0, hi & 0x4000_0000 != 0, hi & 0x2000_0000 != 0, hi & 0x1000_0000 != 0,
      ((hi >> 24) & 0xF) as bv4, ((hi >> 20) & 0xF) as bv4, hi & 0x0008_0000 != 0,
      ((hi >> 17) & 0x3) as bv2, hi & 0x0001_0000 != 0, ((hi >> 12) & 0xF) as bv4,
      (hi & 0xFFF) as bv12)
  }

  /** The high word holding the given fields. */
  function EncodeMisc(m: MiscHi): bv32
  {
    Flag(m.valid, 0x8000_0000) | Flag(m.cntp, 0x4000_0000) | Flag(m.locked, 0x2000_0000)
    | Flag(m.intp, 0x1000_0000) | ((m.bits24 as bv32) << 24) | ((m.lvtOff as bv32) << 20)
    | Flag(m.countEn, 0x0008_0000) | ((m.intType as bv32) << 17) | Flag(m.overflow, 0x0001_0000)
    | ((m.bits12 as bv32) << 12) | (m.count as bv32)
  }

  /** Writing fields and reading them back gives the same fields. */
  lemma DecodeEncodeMisc(m: MiscHi)
    ensures DecodeMisc(EncodeMisc(m)) == m
  {
  }

  /** The new high word written by `threshold_restart_bank`; the low word is written back unchanged. */
  function RestartHi(hi: bv32, tr: ThreshRestart): bv32
  {
    EncodeMisc(RestartMisc(DecodeMisc(hi), tr))
  }

  /** The fields of the word a restart writes are the restarted fields of the word it read. */
  lemma {:induction false} RestartHiFields(hi: bv32, tr: ThreshRestart)
    ensures DecodeMisc(RestartHi(hi, tr)) == RestartMisc(DecodeMisc(hi), tr)
  {
    DecodeEncodeMisc(RestartMisc(DecodeMisc(hi), tr));
  }

  /**
   * `threshold_restart_bank` on the register file: nothing when the
   * per-CPU `threshold_banks` is gone (`banksPresent` false) and this is not
   * an init restart; otherwise the block's MSR is read (zero if it faults)
   * and written back with the low word unchanged and the high word
   * restarted.
   */
  function RestartBank(m: MsrFile, banksPresent: bool, tr: ThreshRestart): MsrFile
  {
    if !banksPresent && !tr.setLvtOff then m
    else
      var r := Read(m, tr.b.address);
      Write(m, tr.b.address, Reg(r.lo, RestartHi(r.hi, tr)))
  }

  /**
   * What a restart does to the register file: only the block's MSR
   * changes, its low word is kept, and the fields of its high word are the
   * restarted fields; a restart racing with the removal of the banks
   * changes nothing.
   */
  lemma {:induction false} RestartBankEffect(m: MsrFile, banksPresent: bool, tr: ThreshRestart)
    ensures RestartBank(m, banksPresent, tr).Keys == m.Keys
    ensures forall a :: a in m && a != tr.b.address ==> RestartBank(m, banksPresent, tr)[a] == m[a]
    ensures !banksPresent && !tr.setLvtOff ==> RestartBank(m, banksPresent, tr) == m
    ensures (banksPresent || tr.setLvtOff) && tr.b.address in m ==>
              RestartBank(m, banksPresent, tr)[tr.b.address].lo == m[tr.b.address].lo
              && DecodeMisc(RestartBank(m, banksPresent, tr)[tr.b.address].hi) == RestartMisc(DecodeMisc(m[tr.b.address].hi), tr)
  {
    if (banksPresent || tr.setLvtOff) && tr.b.address in m {
      RestartHiFields(m[tr.b.address].hi, tr);
    }
  }

  /** After any restart the overflow bit is clear. */
  lemma {:induction false} RestartClearsOverflow(m: MiscHi, tr: ThreshRestart)
    ensures !RestartMisc(m, tr).overflow
  {
    if Resets(m, tr) {
      RestartResetsCounter(m, tr);
    } else if tr.oldLimit != 0 {
      RestartAdjustsCounter(m, tr);
    } else {
      RestartKeepsCounter(m, tr);
    }
  }
}

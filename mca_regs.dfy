/**
 * The machine-check register file of one logical CPU, as seen by the AMD
 * thresholding code: model-specific registers (MSRs) addressed by a 32-bit
 * number, each read and written as a low and a high 32-bit half.
 *
 * A register that is absent from the map is one whose read faults: `rdmsr_safe`
 * reports failure for it.  The faulting forms `rdmsr`/`rdmsrq` read zeroes
 * there (the kernel's exception fixup) and a write to it is dropped.
 */
module McaRegs {
  import opened Wrappers

  /** A 32-bit unsigned value used as a number: MSR addresses, bank and block indices. */
  type u32 = x: int | 0 <= x < 0x1_0000_0000

  /** One MSR: its low (bits 31:0) and high (bits 63:32) halves. */
  datatype Reg = Reg(lo: bv32, hi: bv32)

  type MsrFile = map<u32, Reg>

  /** `MAX_NR_BANKS`: the bank bitmaps are u64 values. */
  const MAX_NR_BANKS: nat := 64

  /** `rdmsr_safe`: `None` when the read faults. */
  function ReadSafe(m: MsrFile, addr: u32): (r: Option<Reg>)
    ensures r.Some? <==> addr in m
    ensures r.Some? ==> r.value == m[addr]
  {
    if addr in m then Some(m[addr]) else None
  }

  /** `rdmsr` / `rdmsrq`: a faulting read yields zero. */
  function Read(m: MsrFile, addr: u32): Reg
  {
    if addr in m then m[addr] else Reg(0, 0)
  }

  /** `wrmsr` / `wrmsrq`: a write to a register that does not exist is dropped. */
  function Write(m: MsrFile, addr: u32, r: Reg): (m': MsrFile)
    ensures m'.Keys == m.Keys
    ensures addr in m ==> m'[addr] == r
    ensures forall a :: a in m && a != addr ==> m'[a] == m[a]
  {
    if addr in m then m[addr := r] else m
  }

  /** The 64-bit value of a register (`rdmsrq`). */
  function Value64(r: Reg): bv64
  {
    ((r.hi as bv64) << 32) | (r.lo as bv64)
  }

  /** An unsigned 32-bit result of C integer arithmetic (wrap-around). */
  function U32(n: int): u32
  {
    n % 0x1_0000_0000
  }

  // Per-bank register kinds, in the order of their offsets.
  datatype McaReg = Ctl | Status | Addr | Misc

  function McaRegOffset(r: McaReg): nat
  {
    match r
    case Ctl => 0
    case Status => 1
    case Addr => 2
    case Misc => 3
  }

  /** Legacy MCA bank registers: MC<bank>_<reg> at 0x400 + 4*bank. */
  function LegacyMsr(bank: nat, r: McaReg): u32
  {
    U32(0x400 + 4 * bank + McaRegOffset(r))
  }

  /** Scalable MCA (SMCA) bank registers: a block of 16 MSRs per bank at 0xC0002000. */
  const SMCA_BASE: int := 0xC000_2000

  function SmcaMsr(bank: nat, offset: nat): u32
  {
    U32(SMCA_BASE + 0x10 * bank + offset)
  }

  function SmcaConfig(bank: nat): u32 { SmcaMsr(bank, 4) }
  function SmcaIpid(bank: nat): u32 { SmcaMsr(bank, 5) }
  function SmcaSynd(bank: nat): u32 { SmcaMsr(bank, 6) }
  function SmcaDestat(bank: nat): u32 { SmcaMsr(bank, 8) }
  function SmcaDeaddr(bank: nat): u32 { SmcaMsr(bank, 9) }
  function SmcaMisc0(bank: nat): u32 { SmcaMsr(bank, 3) }

  /** `MSR_AMD64_SMCA_MCx_MISCy(bank, y)`: MISC1..MISC4 follow DEADDR. */
  function SmcaMiscY(bank: nat, y: nat): u32 { SmcaMsr(bank, 0xA + y) }

  /** `mca_msr_reg(bank, reg)`: the register of the scheme in use. */
  function McaMsrReg(smca: bool, bank: nat, r: McaReg): u32
  {
    if smca then SmcaMsr(bank, McaRegOffset(r)) else LegacyMsr(bank, r)
  }

  // MCA_STATUS bits (a 64-bit register).
  const MCI_STATUS_VAL: bv64 := 1 << 63
  const MCI_STATUS_ADDRV: bv64 := 1 << 58
  const MCI_STATUS_SYNDV: bv64 := 1 << 53
  const MCI_STATUS_DEFERRED: bv64 := 1 << 44
  const MCI_STATUS_POISON: bv64 := 1 << 43

  /** `XEC(status, mask)`: the extended error code, bits 16 and up, under a mask. */
  function Xec(status: bv64, mask: bv64): bv64
  {
    (status >> 16) & mask
  }
}

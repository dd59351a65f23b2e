/**
 * Instruction decoding for the RISC-V misaligned-access trap handler: the
 * instruction length rule, the field and register-offset macros, and the
 * first-match mask/match chains that classify a trapping load or store.
 *
 * `rv64` stands for CONFIG_64BIT throughout: it decides XLEN, the size of a
 * register slot in `struct pt_regs`, and which arms of the chains exist.
 * Instructions are the 16- or 32-bit values `get_insn` assembles.
 */
module RiscvInsn {
  import opened Wrappers

  type Insn = bv64

  const SH_RD: nat := 7
  const SH_RS1: nat := 15
  const SH_RS2: nat := 20
  const SH_RS2C: nat := 2

  /**
   * `INSN_LEN`: section 1.5 of the RISC-V unprivileged ISA manual — an
   * instruction whose two low bits are not both set is a 16-bit compressed
   * one, every other (in the encodings Linux supports) is 32 bits long.
   */
  function InsnLen(insn: Insn): nat
  {
    if insn & 3 < 3 then 2 else 4
  }

  /** The length only depends on the two low bits, so it survives any change to the upper bits. */
  lemma InsnLenLowBits(insn: Insn, other: Insn)
    requires insn & 3 == other & 3
    ensures InsnLen(insn) == InsnLen(other)
    ensures InsnLen(insn) == 2 <==> insn & 3 != 3
  {
  }

  /** `sizeof(unsigned long)`, the size of one register slot. */
  function XlenBytes(rv64: bool): nat
  {
    if rv64 then 8 else 4
  }

  /** `LOG_REGBYTES`. */
  function LogRegBytes(rv64: bool): nat
  {
    if rv64 then 3 else 2
  }

  /** `RV_X(x, s, n)`: the `n`-bit field of `x` starting at bit `s`. */
  function RvX(x: Insn, s: nat, n: nat): Insn
    requires s < 32 && 0 < n < 32
  {
    (x >> s) & (((1 as bv64) << n) - 1)
  }

  /** `RVC_RS1S`: the 3-bit rs1' field of a compressed instruction names one of x8..x15. */
  function RvcRs1s(insn: Insn): (r: Insn)
    ensures 8 <= r <= 15
  {
    8 + RvX(insn, SH_RD, 3)
  }

  /** `RVC_RS2S`: the 3-bit rs2' (or rd') field of a compressed instruction names one of x8..x15. */
  function RvcRs2s(insn: Insn): (r: Insn)
    ensures 8 <= r <= 15
    ensures r - 8 == (insn >> 2) & 7
  {
    8 + RvX(insn, SH_RS2C, 3)
  }

  /** `RVC_RS2`: the full 5-bit rs2 field of a compressed instruction. */
  function RvcRs2(insn: Insn): (r: Insn)
    ensures r < 32
  {
    RvX(insn, SH_RS2C, 5)
  }

  /** `RVC_LW_IMM`: the C.LW/C.SW offset, zero-extended and scaled by 4. */
  function RvcLwImm(x: Insn): (r: Insn)
    ensures r % 4 == 0 && r < 128
  {
    (RvX(x, 6, 1) << 2) | (RvX(x, 10, 3) << 3) | (RvX(x, 5, 1) << 6)
  }

  /** `RVC_LD_IMM`: the C.LD/C.SD offset, zero-extended and scaled by 8. */
  function RvcLdImm(x: Insn): (r: Insn)
    ensures r % 8 == 0 && r < 256
  {
    (RvX(x, 10, 3) << 3) | (RvX(x, 5, 2) << 6)
  }

  /** `RVC_LWSP_IMM`: the C.LWSP offset from sp, zero-extended and scaled by 4. */
  function RvcLwspImm(x: Insn): (r: Insn)
    ensures r % 4 == 0 && r < 256
  {
    (RvX(x, 4, 3) << 2) | (RvX(x, 12, 1) << 5) | (RvX(x, 2, 2) << 6)
  }

  /** `RVC_LDSP_IMM`: the C.LDSP offset from sp, zero-extended and scaled by 8. */
  function RvcLdspImm(x: Insn): (r: Insn)
    ensures r % 8 == 0 && r < 512
  {
    (RvX(x, 5, 2) << 3) | (RvX(x, 12, 1) << 5) | (RvX(x, 2, 3) << 6)
  }

  /** `RVC_SWSP_IMM`: the C.SWSP offset from sp, zero-extended and scaled by 4. */
  function RvcSwspImm(x: Insn): (r: Insn)
    ensures r % 4 == 0 && r < 256
  {
    (RvX(x, 9, 4) << 2) | (RvX(x, 7, 2) << 6)
  }

  /** `RVC_SDSP_IMM`: the C.SDSP offset from sp, zero-extended and scaled by 8. */
  function RvcSdspImm(x: Insn): (r: Insn)
    ensures r % 8 == 0 && r < 512
  {
    (RvX(x, 10, 3) << 3) | (RvX(x, 7, 3) << 6)
  }

  /** `REG_MASK`: the byte offsets of the 32 slots of `struct pt_regs`. */
  function RegMask(rv64: bool): bv64
  {
    ((1 as bv64) << (5 + LogRegBytes(rv64))) - ((1 as bv64) << LogRegBytes(rv64))
  }

  /** `SHIFT_RIGHT(x, y)`: a shift right by `y`, or left by `-y` when `y` is negative. */
  function ShiftRight(x: bv64, y: int): bv64
    requires -32 < y < 32
  {
    if y < 0 then x << (-y) else x >> y
  }

  /** `REG_OFFSET(insn, pos)`: the byte offset into `struct pt_regs` of the register named at bit `pos`. */
  function RegOffset(rv64: bool, insn: Insn, pos: nat): bv64
    requires pos < 32
  {
    ShiftRight(insn, pos - LogRegBytes(rv64)) & RegMask(rv64)
  }

  /** The 5-bit register number at bit `pos`: the slot of `struct pt_regs` that `REG_PTR` reaches. */
  function RegIndex(insn: Insn, pos: nat): bv5
    requires pos < 32
  {
    ((insn >> pos) & 31) as bv5
  }

  /**
   * `REG_OFFSET` is the register number times `REGBYTES`, for every field
   * position the handler uses (rd, rs1, rs2, the compressed rs2 and a bare
   * register number at position 0): a slot-aligned offset inside the 32
   * slots of `struct pt_regs`.
   */
  lemma {:induction false} RegOffsetIsIndex(rv64: bool, insn: Insn, pos: nat)
    requires pos == 0 || pos == SH_RS2C || pos == SH_RD || pos == SH_RS1 || pos == SH_RS2
    ensures RegOffset(rv64, insn, pos) == if rv64 then (RegIndex(insn, pos) as bv64) << 3 else (RegIndex(insn, pos) as bv64) << 2
  {
    var i := RegIndex(insn, pos) as bv64;
    RegIndexWide(insn, pos);
    if rv64 {
      RegOffsetIsIndex64(insn, pos);
    } else {
      RegOffsetIsIndex32(insn, pos);
    }
  }

  /** The register number widened back to a word is the masked field. */
  lemma RegIndexWide(insn: Insn, pos: nat)
    requires pos < 32
    ensures RegIndex(insn, pos) as bv64 == (insn >> pos) & 31
  {
  }

  /** The 64-bit half of `RegOffsetIsIndex`: `REG_MASK` is 0xF8 and `LOG_REGBYTES` is 3. */
  lemma {:induction false} RegOffsetIsIndex64(insn: Insn, pos: nat)
    requires pos == 0 || pos == SH_RS2C || pos == SH_RD || pos == SH_RS1 || pos == SH_RS2
    ensures RegOffset(true, insn, pos) == ((insn >> pos) & 31) << 3
  {
    assert RegMask(true) == 0xF8;
    if pos == 0 { assert ShiftRight(insn, -3) == insn << 3; }
    else if pos == 2 { assert ShiftRight(insn, -1) == insn << 1; }
    else if pos == 7 { assert ShiftRight(insn, 4) == insn >> 4; }
    else if pos == 15 { assert ShiftRight(insn, 12) == insn >> 12; }
    else { assert ShiftRight(insn, 17) == insn >> 17; }
  }

  /** The 32-bit half of `RegOffsetIsIndex`: `REG_MASK` is 0x7C and `LOG_REGBYTES` is 2. */
  lemma {:induction false} RegOffsetIsIndex32(insn: Insn, pos: nat)
    requires pos == 0 || pos == SH_RS2C || pos == SH_RD || pos == SH_RS1 || pos == SH_RS2
    ensures RegOffset(false, insn, pos) == ((insn >> pos) & 31) << 2
  {
    assert RegMask(false) == 0x7C;
    if pos == 0 { assert ShiftRight(insn, -2) == insn << 2; }
    else if pos == 2 { assert ShiftRight(insn, 0) == insn; }
    else if pos == 7 { assert ShiftRight(insn, 5) == insn >> 5; }
    else if pos == 15 { assert ShiftRight(insn, 13) == insn >> 13; }
    else { assert ShiftRight(insn, 18) == insn >> 18; }
  }

  /** The trapping loads the handler emulates, named as in the ISA manual. */
  datatype LoadKind =
    | LW | LD | LWU | FLD | FLW | LH | LHU
    | C_LD | C_LDSP | C_LW | C_LWSP | C_FLD | C_FLDSP | C_FLW | C_FLWSP | C_LHU | C_LH

  /** The trapping stores the handler emulates. */
  datatype StoreKind =
    | SW | SD | FSD | FSW | SH
    | C_SD | C_SDSP | C_SW | C_SWSP | C_FSD | C_FSDSP | C_FSW | C_FSWSP | C_SH

  /** The rd field at bit 7 is not x0 (C.LDSP and C.LWSP with rd = x0 are reserved encodings). */
  predicate RdNonZero(insn: Insn)
  {
    (insn >> 7) & 0x1f != 0
  }

  /**
   * The condition of the arm for `k` in the load chain: the arm exists in
   * this build (some are under CONFIG_64BIT, others under CONFIG_32BIT),
   * the instruction fits the arm's `INSN_MASK_*`/`INSN_MATCH_*` pair, and
   * for C.LDSP/C.LWSP rd is not x0.
   */
  predicate LoadGuard(rv64: bool, k: LoadKind, insn: Insn)
  {
    match k
    case LW => insn & 0x707f == 0x2003
    case LD => rv64 && insn & 0x707f == 0x3003
    case LWU => rv64 && insn & 0x707f == 0x6003
    case FLD => insn & 0x707f == 0x3007
    case FLW => insn & 0x707f == 0x2007
    case LH => insn & 0x707f == 0x1003
    case LHU => insn & 0x707f == 0x5003
    case C_LD => rv64 && insn & 0xe003 == 0x6000
    case C_LDSP => rv64 && insn & 0xe003 == 0x6002 && RdNonZero(insn)
    case C_LW => insn & 0xe003 == 0x4000
    case C_LWSP => insn & 0xe003 == 0x4002 && RdNonZero(insn)
    case C_FLD => insn & 0xe003 == 0x2000
    case C_FLDSP => insn & 0xe003 == 0x2002
    case C_FLW => !rv64 && insn & 0xe003 == 0x6000
    case C_FLWSP => !rv64 && insn & 0xe003 == 0x6002
    case C_LHU => insn & 0xfc43 == 0x8400
    case C_LH => insn & 0xfc43 == 0x8440
  }

  /** The condition of the arm for `k` in the store chain. */
  predicate StoreGuard(rv64: bool, k: StoreKind, insn: Insn)
  {
    match k
    case SW => insn & 0x707f == 0x2023
    case SD => rv64 && insn & 0x707f == 0x3023
    case FSD => insn & 0x707f == 0x3027
    case FSW => insn & 0x707f == 0x2027
    case SH => insn & 0x707f == 0x1023
    case C_SD => rv64 && insn & 0xe003 == 0xe000
    case C_SDSP => rv64 && insn & 0xe003 == 0xe002
    case C_SW => insn & 0xe003 == 0xc000
    case C_SWSP => insn & 0xe003 == 0xc002
    case C_FSD => insn & 0xe003 == 0xa000
    case C_FSDSP => insn & 0xe003 == 0xa002
    case C_FSW => !rv64 && insn & 0xe003 == 0xe000
    case C_FSWSP => !rv64 && insn & 0xe003 == 0xe002
    case C_SH => insn & 0xfc43 == 0x8c00
  }

  /** The mask/match chain of `handle_scalar_misaligned_load`: the first arm that fits wins. */
  function ClassifyLoad(rv64: bool, insn: Insn): (r: Option<LoadKind>)
    ensures r.Some? ==> LoadGuard(rv64, r.value, insn)
  {
    if LoadGuard(rv64, LW, insn) then Some(LW)
    else if LoadGuard(rv64, LD, insn) then Some(LD)
    else if LoadGuard(rv64, LWU, insn) then Some(LWU)
    else if LoadGuard(rv64, FLD, insn) then Some(FLD)
    else if LoadGuard(rv64, FLW, insn) then Some(FLW)
    else if LoadGuard(rv64, LH, insn) then Some(LH)
    else if LoadGuard(rv64, LHU, insn) then Some(LHU)
    else if LoadGuard(rv64, C_LD, insn) then Some(C_LD)
    else if LoadGuard(rv64, C_LDSP, insn) then Some(C_LDSP)
    else if LoadGuard(rv64, C_LW, insn) then Some(C_LW)
    else if LoadGuard(rv64, C_LWSP, insn) then Some(C_LWSP)
    else if LoadGuard(rv64, C_FLD, insn) then Some(C_FLD)
    else if LoadGuard(rv64, C_FLDSP, insn) then Some(C_FLDSP)
    else if LoadGuard(rv64, C_FLW, insn) then Some(C_FLW)
    else if LoadGuard(rv64, C_FLWSP, insn) then Some(C_FLWSP)
    else if LoadGuard(rv64, C_LHU, insn) then Some(C_LHU)
    else if LoadGuard(rv64, C_LH, insn) then Some(C_LH)
    else None
  }

  /** The mask/match chain of `handle_scalar_misaligned_store`. */
  function ClassifyStore(rv64: bool, insn: Insn): (r: Option<StoreKind>)
    ensures r.Some? ==> StoreGuard(rv64, r.value, insn)
  {
    if StoreGuard(rv64, SW, insn) then Some(SW)
    else if StoreGuard(rv64, SD, insn) then Some(SD)
    else if StoreGuard(rv64, FSD, insn) then Some(FSD)
    else if StoreGuard(rv64, FSW, insn) then Some(FSW)
    else if StoreGuard(rv64, SH, insn) then Some(SH)
    else if StoreGuard(rv64, C_SD, insn) then Some(C_SD)
    else if StoreGuard(rv64, C_SDSP, insn) then Some(C_SDSP)
    else if StoreGuard(rv64, C_SW, insn) then Some(C_SW)
    else if StoreGuard(rv64, C_SWSP, insn) then Some(C_SWSP)
    else if StoreGuard(rv64, C_FSD, insn) then Some(C_FSD)
    else if StoreGuard(rv64, C_FSDSP, insn) then Some(C_FSDSP)
    else if StoreGuard(rv64, C_FSW, insn) then Some(C_FSW)
    else if StoreGuard(rv64, C_FSWSP, insn) then Some(C_FSWSP)
    else if StoreGuard(rv64, C_SH, insn) then Some(C_SH)
    else None
  }

  /**
   * No encoding fits two arms that exist in the same build, so the order of
   * the chain only matters through the build switches: every instruction an
   * arm accepts is classified by that arm.  Together with the postcondition
   * of `ClassifyLoad` this makes the chain an exact decoder.
   */
  lemma ClassifyLoadComplete(rv64: bool, k: LoadKind, insn: Insn)
    requires LoadGuard(rv64, k, insn)
    ensures ClassifyLoad(rv64, insn) == Some(k)
  {
    match k
    case LW => case LD => case LWU => case FLD => case FLW => case LH => case LHU =>
    case C_LD => case C_LDSP => case C_LW => case C_LWSP => case C_FLD => case C_FLDSP =>
    case C_FLW => case C_FLWSP => case C_LHU => case C_LH =>
  }

  lemma ClassifyStoreComplete(rv64: bool, k: StoreKind, insn: Insn)
    requires StoreGuard(rv64, k, insn)
    ensures ClassifyStore(rv64, insn) == Some(k)
  {
    match k
    case SW => case SD => case FSD => case FSW => case SH => case C_SD => case C_SDSP =>
    case C_SW => case C_SWSP => case C_FSD => case C_FSDSP => case C_FSW => case C_FSWSP => case C_SH =>
  }

  /**
   * C.LD and C.FLW, and C.LDSP and C.FLWSP, share their encodings: a 64-bit
   * kernel reads them as C.LD/C.LDSP, a 32-bit one as C.FLW/C.FLWSP.  C.LDSP
   * and C.LWSP with rd = x0 are not emulated, while C.FLWSP with f0 is.
   */
  lemma SharedEncodings(rv64: bool, insn: Insn)
    ensures insn & 0xe003 == 0x6000 ==> ClassifyLoad(rv64, insn) == Some(if rv64 then C_LD else C_FLW)
    ensures insn & 0xe003 == 0x6002 ==>
      ClassifyLoad(rv64, insn) == (if !rv64 then Some(C_FLWSP) else if RdNonZero(insn) then Some(C_LDSP) else None)
    ensures insn & 0xe003 == 0x4002 && !RdNonZero(insn) ==> ClassifyLoad(rv64, insn) == None
    ensures insn & 0xe003 == 0xe000 ==> ClassifyStore(rv64, insn) == Some(if rv64 then C_SD else C_FSW)
    ensures insn & 0xe003 == 0xe002 ==> ClassifyStore(rv64, insn) == Some(if rv64 then C_SDSP else C_FSWSP)
  {
  }

  predicate IsCompressedLoad(k: LoadKind)
  {
    match k
    case C_LD | C_LDSP | C_LW | C_LWSP | C_FLD | C_FLDSP | C_FLW | C_FLWSP | C_LHU | C_LH => true
    case _ => false
  }

  predicate IsCompressedStore(k: StoreKind)
  {
    match k
    case C_SD | C_SDSP | C_SW | C_SWSP | C_FSD | C_FSDSP | C_FSW | C_FSWSP | C_SH => true
    case _ => false
  }

  /** A kind is a compressed one exactly when the instruction it classifies is 16 bits long. */
  lemma ClassifiedLength(rv64: bool, insn: Insn)
    ensures ClassifyLoad(rv64, insn).Some? ==> (IsCompressedLoad(ClassifyLoad(rv64, insn).value) <==> InsnLen(insn) == 2)
    ensures ClassifyStore(rv64, insn).Some? ==> (IsCompressedStore(ClassifyStore(rv64, insn).value) <==> InsnLen(insn) == 2)
  {
  }

  /**
   * What an arm of the load chain sets: the access length, the shift that
   * sign-extends the loaded value in an XLEN register, whether it goes to
   * a floating-point register, and the instruction as rewritten so that
   * the destination sits in the rd field (`RVC_RS2S(insn) << SH_RD`).
   */
  datatype LoadOp = LoadOp(len: nat, shift: nat, fp: bool, insn: Insn)

  /** `8 * (sizeof(unsigned long) - len)`. */
  function SignShift(rv64: bool, len: nat): nat
    requires len <= XlenBytes(rv64)
  {
    8 * (XlenBytes(rv64) - len)
  }

  /** `RVC_RS2S(insn) << SH_RD`. */
  function MoveRs2sToRd(insn: Insn): Insn
  {
    RvcRs2s(insn) << SH_RD
  }

  /** The assignments of the arm of the load chain for `k`. */
  function LoadOpOf(rv64: bool, k: LoadKind, insn: Insn): (r: LoadOp)
    requires LoadGuard(rv64, k, insn)
    ensures (r.len == 2 || r.len == 4 || r.len == 8) && r.shift < (if rv64 then 64 else 32)
  {
    match k
    case LW => LoadOp(4, SignShift(rv64, 4), false, insn)
    case LD => LoadOp(8, SignShift(rv64, 8), false, insn)
    case LWU => LoadOp(4, 0, false, insn)
    case FLD => LoadOp(8, 0, true, insn)
    case FLW => LoadOp(4, 0, true, insn)
    case LH => LoadOp(2, SignShift(rv64, 2), false, insn)
    case LHU => LoadOp(2, 0, false, insn)
    case C_LD => LoadOp(8, SignShift(rv64, 8), false, MoveRs2sToRd(insn))
    case C_LDSP => LoadOp(8, SignShift(rv64, 8), false, insn)
    case C_LW => LoadOp(4, SignShift(rv64, 4), false, MoveRs2sToRd(insn))
    case C_LWSP => LoadOp(4, SignShift(rv64, 4), false, insn)
    case C_FLD => LoadOp(8, 0, true, MoveRs2sToRd(insn))
    case C_FLDSP => LoadOp(8, 0, true, insn)
    case C_FLW => LoadOp(4, 0, true, MoveRs2sToRd(insn))
    case C_FLWSP => LoadOp(4, 0, true, insn)
    case C_LHU => LoadOp(2, 0, false, MoveRs2sToRd(insn))
    case C_LH => LoadOp(2, SignShift(rv64, 2), false, MoveRs2sToRd(insn))
  }

  /** The load half of the handler's decoding: `None` is the unrecognised instruction. */
  function DecodeLoad(rv64: bool, insn: Insn): Option<LoadOp>
  {
    match ClassifyLoad(rv64, insn)
    case None => None
    case Some(k) => Some(LoadOpOf(rv64, k, insn))
  }

  /** Loads that the ISA defines as sign-extending into rd. */
  predicate SignedLoad(k: LoadKind)
  {
    match k
    case LW | LD | LH | C_LD | C_LDSP | C_LW | C_LWSP | C_LH => true
    case _ => false
  }

  predicate FpLoad(k: LoadKind)
  {
    match k
    case FLD | FLW | C_FLD | C_FLDSP | C_FLW | C_FLWSP => true
    case _ => false
  }

  /** The number of bytes the ISA defines each load to read. */
  function LoadWidth(k: LoadKind): nat
  {
    match k
    case LD | FLD | C_LD | C_LDSP | C_FLD | C_FLDSP => 8
    case LH | LHU | C_LHU | C_LH => 2
    case _ => 4
  }

  /** The kinds whose destination is the 3-bit rd' field of the CL format. */
  predicate ClFormat(k: LoadKind)
  {
    match k
    case C_LD | C_LW | C_FLD | C_FLW | C_LHU | C_LH => true
    case _ => false
  }

  /**
   * The destination register as the ISA encodes it: bits 4:2 name x8..x15 in
   * the CL format, bits 11:7 name any register in the I and CI formats.
   */
  function LoadDest(k: LoadKind, insn: Insn): bv5
  {
    if ClFormat(k) then 8 + (((insn >> 2) & 7) as bv5) else ((insn >> 7) & 31) as bv5
  }

  /**
   * Each arm sets what the ISA defines for its instruction: the access
   * width, a floating-point destination exactly for the FP loads, and a
   * non-zero shift exactly for the signed loads narrower than a register;
   * after the rewrite the rd field names the ISA's destination register
   * and the length is still that of the original instruction.
   */
  lemma LoadOpMeaning(rv64: bool, k: LoadKind, insn: Insn)
    requires LoadGuard(rv64, k, insn)
    ensures LoadOpOf(rv64, k, insn).len == LoadWidth(k)
    ensures LoadOpOf(rv64, k, insn).fp == FpLoad(k)
    ensures !FpLoad(k) ==> (LoadOpOf(rv64, k, insn).shift != 0 <==> SignedLoad(k) && LoadWidth(k) < XlenBytes(rv64))
    ensures !FpLoad(k) ==> LoadWidth(k) <= XlenBytes(rv64)
    ensures RegIndex(LoadOpOf(rv64, k, insn).insn, SH_RD) == LoadDest(k, insn)
    ensures InsnLen(LoadOpOf(rv64, k, insn).insn) == InsnLen(insn)
  {
    var op := LoadOpOf(rv64, k, insn);
    if ClFormat(k) {
      var s := RvcRs2s(insn);
      assert op.insn == s << 7;
      assert ((s << 7) >> 7) & 31 == s;
    }
  }

  /** Where a store takes its value: a general register slot or a floating-point register read at 64 or 32 bits. */
  datatype Source = Gpr(n: bv5) | Fpr64(n: bv5) | Fpr32(n: bv5)

  datatype StoreOp = StoreOp(len: nat, fp: bool, src: Source)

  /**
   * The assignments of the arm of the store chain for `k`; an arm that
   * does not load `val` itself keeps the `GET_RS2` value read before the
   * chain.
   */
  function StoreOpOf(k: StoreKind, insn: Insn): (r: StoreOp)
    ensures r.len == 2 || r.len == 4 || r.len == 8
  {
    var rs2 := Gpr(RegIndex(insn, SH_RS2));
    match k
    case SW => StoreOp(4, false, rs2)
    case SD => StoreOp(8, false, rs2)
    case FSD => StoreOp(8, true, Fpr64(RegIndex(insn, 20)))
    case FSW => StoreOp(4, true, Fpr32(RegIndex(insn, 20)))
    case SH => StoreOp(2, false, rs2)
    case C_SD => StoreOp(8, false, Gpr(RegIndex(RvcRs2s(insn), 0)))
    case C_SDSP => StoreOp(8, false, Gpr(RegIndex(insn, SH_RS2C)))
    case C_SW => StoreOp(4, false, Gpr(RegIndex(RvcRs2s(insn), 0)))
    case C_SWSP => StoreOp(4, false, Gpr(RegIndex(insn, SH_RS2C)))
    case C_FSD => StoreOp(8, true, Fpr64(RegIndex(RvcRs2s(insn), 0)))
    case C_FSDSP => StoreOp(8, true, Fpr64(RegIndex(insn, 2)))
    case C_FSW => StoreOp(4, true, Fpr32(RegIndex(RvcRs2s(insn), 0)))
    case C_FSWSP => StoreOp(4, true, Fpr32(RegIndex(insn, 2)))
    case C_SH => StoreOp(2, false, Gpr(RegIndex(RvcRs2s(insn), 0)))
  }

  /** The store half of the handler's decoding. */
  function DecodeStore(rv64: bool, insn: Insn): Option<StoreOp>
  {
    match ClassifyStore(rv64, insn)
    case None => None
    case Some(k) => Some(StoreOpOf(k, insn))
  }

  predicate FpStore(k: StoreKind)
  {
    match k
    case FSD | FSW | C_FSD | C_FSDSP | C_FSW | C_FSWSP => true
    case _ => false
  }

  function StoreWidth(k: StoreKind): nat
  {
    match k
    case SD | FSD | C_SD | C_SDSP | C_FSD | C_FSDSP => 8
    case SH | C_SH => 2
    case _ => 4
  }

  /**
   * The source register as the ISA encodes it: bits 24:20 in the S format,
   * x8..x15 from bits 4:2 in the CS format, bits 6:2 in the CSS format.
   */
  function StoreSrcReg(k: StoreKind, insn: Insn): bv5
  {
    match k
    case SW | SD | FSD | FSW | SH => ((insn >> 20) & 31) as bv5
    case C_SDSP | C_SWSP | C_FSDSP | C_FSWSP => ((insn >> 2) & 31) as bv5
    case _ => 8 + (((insn >> 2) & 7) as bv5)
  }

  /**
   * Each store arm stores the width the ISA defines, from the register the
   * ISA names, read from the floating-point file (at 64 bits for the
   * double-precision stores) exactly for the FP stores.
   */
  lemma StoreOpMeaning(rv64: bool, k: StoreKind, insn: Insn)
    requires StoreGuard(rv64, k, insn)
    ensures StoreOpOf(k, insn).len == StoreWidth(k)
    ensures StoreOpOf(k, insn).fp == FpStore(k)
    ensures StoreOpOf(k, insn).src.n == StoreSrcReg(k, insn)
    ensures StoreOpOf(k, insn).src.Gpr? <==> !FpStore(k)
    ensures StoreOpOf(k, insn).src.Fpr64? <==> FpStore(k) && StoreWidth(k) == 8
    ensures !FpStore(k) ==> StoreWidth(k) <= XlenBytes(rv64)
  {
  }
}

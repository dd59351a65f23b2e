/**
 * What the scalar and vector misaligned-access handlers of
 * arch/riscv/kernel/traps_misaligned.c do to the trapping hart, as
 * functions of the state they start from.  The state is the register
 * frame (`struct pt_regs`, whose slot 0 is `epc` and whose slots 1..31 are
 * x1..x31), the floating-point register file, the FS field of `status`
 * (dirty or not) and the memory the handler copies from and to.
 */
module RiscvEmulate {
  import opened Wrappers
  import opened RiscvInsn
  import opened RiscvMemory

  /** `EOPNOTSUPP`: a floating-point access on a kernel built without FPU support. */
  const EOPNOTSUPP: int := 95

  /** The build switches the handlers depend on. */
  datatype Config = Config(rv64: bool, fpu: bool, scalarMisaligned: bool, vectorMisaligned: bool, sbi: bool)

  /** The hart as the trap handler sees it. */
  datatype Hart = Hart(regs: seq<bv64>, fpr: seq<bv64>, fsDirty: bool, mem: Memory)

  predicate WellFormed(h: Hart)
  {
    |h.regs| == 32 && |h.fpr| == 32
  }

  /** `regs->epc`, the first slot of the frame. */
  function Epc(h: Hart): bv64
    requires WellFormed(h)
  {
    h.regs[0]
  }

  /** The hart with `regs->epc` set to `v`. */
  function WithEpc(h: Hart, v: bv64): (r: Hart)
    requires WellFormed(h)
    ensures WellFormed(r) && Epc(r) == v
  {
    h.(regs := h.regs[0 := v])
  }

  /**
   * The facts about the trap that the handlers consult besides the hart:
   * whether it came from user mode, whether the current task asked for
   * SIGBUS on misaligned accesses (`PR_UNALIGN_SIGBUS`), and `badaddr`.
   */
  datatype Trap = Trap(user: bool, sigbus: bool, badaddr: bv64)

  function Addr(t: Trap): int
  {
    t.badaddr as int
  }

  /** A handler's return value and the hart it leaves behind. */
  datatype Outcome = Outcome(ret: int, hart: Hart)

  /** A shift amount as the shift instructions take it. */
  function Amount(n: nat): bv7
    requires n < 64
  {
    n as bv7
  }

  function Shl(x: bv64, s: bv7): bv64
    requires s < 64
  {
    x << s
  }

  function Shr(x: bv64, s: bv7): bv64
    requires s < 64
  {
    x >> s
  }

  /** An arithmetic right shift of a 64-bit register. */
  function Sar64(y: bv64, s: bv7): bv64
    requires s < 64
  {
    if y >> 63 == 1 then !Shr(!y, s) else Shr(y, s)
  }

  /** An arithmetic right shift of a 32-bit register (held in the low half of a word). */
  function Sar32(y: bv64, s: bv7): bv64
    requires s < 32
  {
    if y >> 31 == 1 then !Shr(!y & 0xFFFF_FFFF, s) & 0xFFFF_FFFF else Shr(y, s)
  }

  /**
   * `(long)(val.data_ulong << shift) >> shift` in an XLEN-bit register: a
   * left shift that drops the bits above XLEN, then an arithmetic right
   * shift that copies the sign bit back down.
   */
  function ShiftExtend(rv64: bool, x: bv64, shift: nat): bv64
    requires shift < (if rv64 then 64 else 32)
  {
    if rv64 then Sar64(Shl(x, Amount(shift)), Amount(shift))
    else Sar32(Shl(x, Amount(shift)) & 0xFFFF_FFFF, Amount(shift))
  }

  /** A halfword sign-extended to 64 bits. */
  function Sext16(x: bv64): bv64
  {
    if x & 0x8000 != 0 then x | 0xFFFF_FFFF_FFFF_0000 else x & 0xFFFF
  }

  /** A word sign-extended to 64 bits. */
  function Sext32(x: bv64): bv64
  {
    if x & 0x8000_0000 != 0 then x | 0xFFFF_FFFF_0000_0000 else x & 0xFFFF_FFFF
  }

  /** The bits a 32-bit register holds. */
  function Low32(x: bv64): bv64
  {
    x & 0xFFFF_FFFF
  }

  /** The ISA's sign extension of an `n`-byte value to an XLEN-bit register. */
  function SignExtend(rv64: bool, x: bv64, n: nat): bv64
    requires n == 2 || n == 4 || n == 8
  {
    var r := if n == 2 then Sext16(x) else if n == 4 then Sext32(x) else x;
    if rv64 then r else Low32(r)
  }

  /** The ISA's zero extension of an `n`-byte value. */
  function ZeroExtend(x: bv64, n: nat): bv64
    requires n == 2 || n == 4 || n == 8
  {
    if n == 2 then x & 0xFFFF else if n == 4 then x & 0xFFFF_FFFF else x
  }

  /** The value the ISA defines a load of kind `k` to leave in rd, given the bytes `x` it read. */
  function IsaLoadValue(rv64: bool, k: LoadKind, x: bv64): bv64
  {
    if SignedLoad(k) then SignExtend(rv64, x, LoadWidth(k)) else ZeroExtend(x, LoadWidth(k))
  }

  lemma UnfoldShift48(x: bv64)
    ensures ShiftExtend(true, x, 48) == Sar64(x << 48, 48)
  {
    assert Amount(48) == 48;
    assert Shl(x, 48) == x << 48;
  }

  lemma UnfoldShift32(x: bv64)
    ensures ShiftExtend(true, x, 32) == Sar64(x << 32, 32)
  {
    assert Amount(32) == 32;
    assert Shl(x, 32) == x << 32;
  }

  lemma UnfoldShift16(x: bv64)
    ensures ShiftExtend(false, x, 16) == Sar32((x << 16) & 0xFFFF_FFFF, 16)
  {
    assert Amount(16) == 16;
    assert Shl(x, 16) == x << 16;
  }

  lemma UnfoldShift0(rv64: bool, x: bv64)
    ensures ShiftExtend(rv64, x, 0) == if rv64 then Sar64(x, 0) else Sar32(x & 0xFFFF_FFFF, 0)
  {
    assert Amount(0) == 0;
    assert Shl(x, 0) == x;
  }

  lemma SarHalf64(x: bv64)
    ensures Sar64(x << 48, 48) == Sext16(x)
  {
    assert Shr(x << 48, 48) == (x << 48) >> 48;
    assert Shr(!(x << 48), 48) == !(x << 48) >> 48;
  }

  lemma SarWord64(x: bv64)
    ensures Sar64(x << 32, 32) == Sext32(x)
  {
    assert Shr(x << 32, 32) == (x << 32) >> 32;
    assert Shr(!(x << 32), 32) == !(x << 32) >> 32;
  }

  lemma Low32Sext16(x: bv64)
    ensures Low32(Sext16(x)) == (if x & 0x8000 != 0 then (x | 0xFFFF_FFFF_FFFF_0000) & 0xFFFF_FFFF else x & 0xFFFF)
  {
    assert Sext16(x) == if x & 0x8000 != 0 then x | 0xFFFF_FFFF_FFFF_0000 else x & 0xFFFF;
  }

  lemma SarHalf32(x: bv64)
    ensures Sar32((x << 16) & 0xFFFF_FFFF, 16) == Low32(Sext16(x))
  {
    assert Shr((x << 16) & 0xFFFF_FFFF, 16) == ((x << 16) & 0xFFFF_FFFF) >> 16;
    assert Shr(!((x << 16) & 0xFFFF_FFFF) & 0xFFFF_FFFF, 16) == (!((x << 16) & 0xFFFF_FFFF) & 0xFFFF_FFFF) >> 16;
    Low32Sext16(x);
  }

  lemma SarNone64(x: bv64)
    ensures Sar64(x, 0) == x
  {
    assert Shr(x, 0) == x && Shr(!x, 0) == !x;
  }

  lemma SarNone32(x: bv64)
    ensures Sar32(x & 0xFFFF_FFFF, 0) == x & 0xFFFF_FFFF
  {
    assert Shr(x & 0xFFFF_FFFF, 0) == x & 0xFFFF_FFFF;
    assert Shr(!(x & 0xFFFF_FFFF) & 0xFFFF_FFFF, 0) == !(x & 0xFFFF_FFFF) & 0xFFFF_FFFF;
  }

  lemma Low32Sext32(x: bv64)
    ensures Low32(Sext32(x)) == x & 0xFFFF_FFFF
  {
    assert Sext32(x) == if x & 0x8000_0000 != 0 then x | 0xFFFF_FFFF_0000_0000 else x & 0xFFFF_FFFF;
    assert Low32(Sext32(x)) == Sext32(x) & 0xFFFF_FFFF;
  }

  /** LH on a 64-bit hart: shift by 48 sign-extends the halfword. */
  lemma {:induction false} ExtendLh64(x: bv64)
    ensures ShiftExtend(true, x, 48) == SignExtend(true, x, 2)
  {
    UnfoldShift48(x);
    SarHalf64(x);
    assert SignExtend(true, x, 2) == Sext16(x);
  }

  /** LW on a 64-bit hart: shift by 32 sign-extends the word. */
  lemma {:induction false} ExtendLw64(x: bv64)
    ensures ShiftExtend(true, x, 32) == SignExtend(true, x, 4)
  {
    UnfoldShift32(x);
    SarWord64(x);
    assert SignExtend(true, x, 4) == Sext32(x);
  }

  /** LH on a 32-bit hart: shift by 16 sign-extends the halfword. */
  lemma {:induction false} ExtendLh32(x: bv64)
    ensures ShiftExtend(false, x, 16) == SignExtend(false, x, 2)
  {
    UnfoldShift16(x);
    SarHalf32(x);
    assert SignExtend(false, x, 2) == Low32(Sext16(x));
  }

  /** With no shift the register keeps the XLEN low bits. */
  lemma {:induction false} ExtendNone(rv64: bool, x: bv64)
    ensures ShiftExtend(rv64, x, 0) == if rv64 then x else x & 0xFFFF_FFFF
  {
    UnfoldShift0(rv64, x);
    if rv64 { SarNone64(x); } else { SarNone32(x); }
  }

  /** A full-width load needs no extension. */
  lemma ExtendFull(rv64: bool, x: bv64)
    ensures SignExtend(rv64, x, if rv64 then 8 else 4) == if rv64 then x else x & 0xFFFF_FFFF
  {
    if !rv64 {
      Low32Sext32(x);
    }
  }

  /** A value that fits its width is its own zero extension, and fits any wider register. */
  lemma ZeroExtendFits(rv64: bool, x: bv64, n: nat)
    requires n == 2 || n == 4 || (n == 8 && rv64)
    requires x & LowMask(n) == x
    ensures ZeroExtend(x, n) == x && (if rv64 then x else x & 0xFFFF_FFFF) == x
  {
  }

  /** The shift an integer-load arm sets: the sign shift for the signed loads, none for the others. */
  lemma LoadShiftValue(rv64: bool, k: LoadKind, insn: Insn)
    requires LoadGuard(rv64, k, insn) && !FpLoad(k)
    ensures LoadWidth(k) <= XlenBytes(rv64)
    ensures LoadOpOf(rv64, k, insn).shift == if SignedLoad(k) then SignShift(rv64, LoadWidth(k)) else 0
  {
  }

  /** `ShiftExtend` with the shift of a `w`-byte load is the sign or zero extension of a `w`-byte value. */
  lemma {:induction false} ExtendByWidth(rv64: bool, signed: bool, w: nat, x: bv64)
    requires w == 2 || w == 4 || w == 8
    requires w <= XlenBytes(rv64) && x & LowMask(w) == x
    ensures SignShift(rv64, w) < (if rv64 then 64 else 32)
    ensures ShiftExtend(rv64, x, if signed then SignShift(rv64, w) else 0)
         == if signed then SignExtend(rv64, x, w) else ZeroExtend(x, w)
  {
    if !signed {
      ExtendNone(rv64, x);
      ZeroExtendFits(rv64, x, w);
    } else if w == XlenBytes(rv64) {
      assert SignShift(rv64, w) == 0;
      ExtendNone(rv64, x);
      ExtendFull(rv64, x);
    } else if rv64 && w == 2 {
      assert SignShift(rv64, w) == 48;
      ExtendLh64(x);
    } else if rv64 {
      assert SignShift(rv64, w) == 32;
      ExtendLw64(x);
    } else {
      assert SignShift(rv64, w) == 16;
      ExtendLh32(x);
    }
  }

  /**
   * The shift trick of the load handler is the ISA's extension: for every
   * integer load it emulates and every value that fits the load's width,
   * `(long)(x << shift) >> shift` is the sign extension for the signed
   * loads and the zero extension for LWU, LHU and C.LHU.
   */
  lemma {:induction false} LoadExtendMeaning(rv64: bool, k: LoadKind, insn: Insn, x: bv64)
    requires LoadGuard(rv64, k, insn) && !FpLoad(k)
    requires x & LowMask(LoadWidth(k)) == x
    ensures LoadOpOf(rv64, k, insn).shift < (if rv64 then 64 else 32)
    ensures ShiftExtend(rv64, x, LoadOpOf(rv64, k, insn).shift) == IsaLoadValue(rv64, k, x)
  {
    LoadShiftValue(rv64, k, insn);
    ExtendByWidth(rv64, SignedLoad(k), LoadWidth(k), x);
  }

  /** A register number as an index into the frame or the FP file. */
  function Slot(n: bv5): (r: nat)
    ensures r < 32 && (r == 0 <==> n == 0)
  {
    n as nat
  }

  /** `epc + INSN_LEN(insn)`. */
  function Advance(epc: bv64, insn: Insn): bv64
  {
    epc + (if InsnLen(insn) == 2 then 2 else 4)
  }

  /** The step past an instruction depends only on its length. */
  lemma AdvanceByLength(epc: bv64, a: Insn, b: Insn)
    requires InsnLen(a) == InsnLen(b)
    ensures Advance(epc, a) == Advance(epc, b)
  {
  }

  /**
   * In kernel mode the handler reads the instruction and copies the data
   * with plain dereferences: the faulting kernel code is trusted to have
   * been executing reachable code on reachable data.
   */
  predicate KernelLoadReachable(cfg: Config, t: Trap, h: Hart)
    requires WellFormed(h)
  {
    match GetInsn(h.mem, Epc(h))
    case None => false
    case Some(insn) =>
      match DecodeLoad(cfg.rv64, insn)
      case None => true
      case Some(op) => (op.fp && !cfg.fpu) || Mapped(h.mem, Addr(t), op.len)
  }

  /**
   * The part of `handle_scalar_misaligned_load` that follows the chain of
   * instruction tests, started on the hart whose `epc` slot has been
   * cleared: the FPU check, the copy of `op.len` bytes from `badaddr`, the
   * write of the destination and the step past the instruction at `epc`.
   */
  function LoadEffect(cfg: Config, t: Trap, h: Hart, epc: bv64, op: LoadOp): Outcome
    requires WellFormed(h)
    requires (op.len == 2 || op.len == 4 || op.len == 8) && op.shift < (if cfg.rv64 then 64 else 32)
  {
    if op.fp && !cfg.fpu then Outcome(-EOPNOTSUPP, h)
    else if !Mapped(h.mem, Addr(t), op.len) then Outcome(-1, h)
    else
      var data := LoadLE(h.mem, Addr(t), op.len);
      var rd := Slot(RegIndex(op.insn, SH_RD));
      var h1 :=
        if op.fp then h.(fpr := h.fpr[rd := data], fsDirty := true)
        else h.(regs := h.regs[rd := ShiftExtend(cfg.rv64, data, op.shift)]);
      Outcome(0, WithEpc(h1, Advance(epc, op.insn)))
  }

  /**
   * `handle_scalar_misaligned_load` on a hart whose accesses are all
   * emulation-enabled (`enabled` is `unaligned_enabled`); the update of
   * the per-CPU speed it starts with belongs to the per-CPU state.
   */
  function ScalarLoad(cfg: Config, enabled: bool, t: Trap, h: Hart): Outcome
    requires WellFormed(h)
    requires !t.user ==> KernelLoadReachable(cfg, t, h)
  {
    if !enabled || (t.user && t.sigbus) then Outcome(-1, h)
    else
      match GetInsn(h.mem, Epc(h))
      case None => Outcome(-1, h)
      case Some(insn) =>
        var cleared := WithEpc(h, 0);
        match DecodeLoad(cfg.rv64, insn)
        case None => Outcome(-1, WithEpc(cleared, Epc(h)))
        case Some(op) => LoadEffect(cfg, t, cleared, Epc(h), op)
  }

  /** As for loads, a trapping kernel store must be to reachable memory. */
  predicate KernelStoreReachable(cfg: Config, t: Trap, h: Hart)
    requires WellFormed(h)
  {
    match GetInsn(h.mem, Epc(h))
    case None => false
    case Some(insn) =>
      match DecodeStore(cfg.rv64, insn)
      case None => true
      case Some(op) => (op.fp && !cfg.fpu) || Mapped(h.mem, Addr(t), op.len)
  }

  /**
   * The value `val` holds once the arm for `src` has run, and whether
   * reading it set the FS field dirty: the FP getters do both when the
   * kernel has FPU support and return 0 otherwise.  A single-precision
   * register is read at its low 32 bits.
   */
  function StoreSource(fpu: bool, h: Hart, src: Source): (bv64, bool)
    requires WellFormed(h)
  {
    match src
    case Gpr(n) => (h.regs[Slot(n)], false)
    case Fpr64(n) => if fpu then (h.fpr[Slot(n)], true) else (0, false)
    case Fpr32(n) => if fpu then (Low32(h.fpr[Slot(n)]), true) else (0, false)
  }

  /**
   * The part of `handle_scalar_misaligned_store` after `regs->epc = 0`:
   * reading the source register from the cleared frame, the FPU check,
   * the copy of `op.len` bytes to `badaddr` and the step past `insn`.
   */
  function StoreEffect(cfg: Config, t: Trap, h: Hart, epc: bv64, insn: Insn, op: StoreOp): Outcome
    requires WellFormed(h)
    requires op.len == 2 || op.len == 4 || op.len == 8
  {
    var (v, dirty) := StoreSource(cfg.fpu, h, op.src);
    var h1 := if dirty then h.(fsDirty := true) else h;
    if op.fp && !cfg.fpu then Outcome(-EOPNOTSUPP, h1)
    else if !Mapped(h.mem, Addr(t), op.len) then Outcome(-1, h1)
    else Outcome(0, WithEpc(h1.(mem := StoreLE(h.mem, Addr(t), v, op.len)), Advance(epc, insn)))
  }

  /** `handle_scalar_misaligned_store`. */
  function ScalarStore(cfg: Config, enabled: bool, t: Trap, h: Hart): Outcome
    requires WellFormed(h)
    requires !t.user ==> KernelStoreReachable(cfg, t, h)
  {
    if !enabled || (t.user && t.sigbus) then Outcome(-1, h)
    else
      match GetInsn(h.mem, Epc(h))
      case None => Outcome(-1, h)
      case Some(insn) =>
        var cleared := WithEpc(h, 0);
        match DecodeStore(cfg.rv64, insn)
        case None => Outcome(-1, WithEpc(cleared, Epc(h)))
        case Some(op) => StoreEffect(cfg, t, cleared, Epc(h), insn, op)
  }

  /** The hart with its `epc` slot cleared and then given back its old value is the hart it was. */
  lemma RestoreEpc(h: Hart)
    requires WellFormed(h)
    ensures WithEpc(WithEpc(h, 0), Epc(h)) == h
  {
    assert WithEpc(WithEpc(h, 0), Epc(h)).regs == h.regs;
  }

  /**
   * The load handler gives up with -1 and leaves the hart as it found it
   * when emulation is switched off, when the task asked for SIGBUS, when
   * the instruction cannot be read and when it is not a load the handler
   * knows.
   */
  lemma {:induction false} ScalarLoadRefused(cfg: Config, enabled: bool, t: Trap, h: Hart)
    requires WellFormed(h) && (!t.user ==> KernelLoadReachable(cfg, t, h))
    requires !enabled || (t.user && t.sigbus) || !Fetchable(h.mem, Epc(h))
             || (GetInsn(h.mem, Epc(h)).Some? && ClassifyLoad(cfg.rv64, GetInsn(h.mem, Epc(h)).value).None?)
    ensures ScalarLoad(cfg, enabled, t, h) == Outcome(-1, h)
  {
    GetInsnMeaning(h.mem, Epc(h));
    RestoreEpc(h);
  }

  /** Past the refusals, the load handler is `LoadEffect` for the arm `k` selects. */
  lemma {:induction false} ScalarLoadIsEffect(cfg: Config, enabled: bool, t: Trap, h: Hart, insn: Insn, k: LoadKind)
    requires WellFormed(h) && (!t.user ==> KernelLoadReachable(cfg, t, h))
    requires enabled && !(t.user && t.sigbus)
    requires GetInsn(h.mem, Epc(h)) == Some(insn) && ClassifyLoad(cfg.rv64, insn) == Some(k)
    ensures ScalarLoad(cfg, enabled, t, h) == LoadEffect(cfg, t, WithEpc(h, 0), Epc(h), LoadOpOf(cfg.rv64, k, insn))
  {
  }

  /**
   * A load as the ISA defines it, carried out by the hart that trapped on
   * it: the destination the ISA names gets the `LoadWidth(k)` bytes at
   * `badaddr`, extended as the ISA defines for an integer load (one into
   * x0 is discarded) and as they are, with the FP state marked dirty, for
   * an FP load; `epc` moves past the instruction; nothing else changes.
   */
  function IsaLoad(rv64: bool, h: Hart, t: Trap, insn: Insn, k: LoadKind): (r: Hart)
    requires WellFormed(h) && Mapped(h.mem, Addr(t), LoadWidth(k))
    ensures WellFormed(r)
  {
    var x := LoadLE(h.mem, Addr(t), LoadWidth(k));
    var d := Slot(LoadDest(k, insn));
    var written :=
      if FpLoad(k) then h.(fpr := h.fpr[d := x], fsDirty := true)
      else if d == 0 then h
      else h.(regs := h.regs[d := IsaLoadValue(rv64, k, x)]);
    WithEpc(written, Advance(Epc(h), insn))
  }

  /**
   * The register writes of `LoadEffect` on the cleared frame, followed by
   * the new `epc`, are those of `IsaLoad` on the original frame: slot 0 is
   * overwritten last either way.
   */
  lemma {:induction false} WriteThenStep(h: Hart, fp: bool, d: nat, x: bv64, v: bv64, e: bv64)
    requires WellFormed(h) && d < 32
    ensures WithEpc(if fp then WithEpc(h, 0).(fpr := h.fpr[d := x], fsDirty := true)
                    else WithEpc(h, 0).(regs := WithEpc(h, 0).regs[d := v]), e)
            == WithEpc(if fp then h.(fpr := h.fpr[d := x], fsDirty := true)
                       else if d == 0 then h
                       else h.(regs := h.regs[d := v]), e)
  {
    if !fp {
      assert WithEpc(h, 0).regs[d := v][0 := e] == (if d == 0 then h.regs else h.regs[d := v])[0 := e];
    }
  }

  /** `LoadEffect` carries out the load `IsaLoad` describes once the arm's assignments mean what the ISA says. */
  lemma {:induction false} LoadEffectIsIsa(cfg: Config, t: Trap, h: Hart, op: LoadOp, insn: Insn, k: LoadKind)
    requires WellFormed(h)
    requires (op.len == 2 || op.len == 4 || op.len == 8) && op.shift < (if cfg.rv64 then 64 else 32)
    requires (op.fp ==> cfg.fpu) && Mapped(h.mem, Addr(t), LoadWidth(k))
    requires op.len == LoadWidth(k) && op.fp == FpLoad(k)
    requires RegIndex(op.insn, SH_RD) == LoadDest(k, insn) && InsnLen(op.insn) == InsnLen(insn)
    requires !op.fp ==> ShiftExtend(cfg.rv64, LoadLE(h.mem, Addr(t), LoadWidth(k)), op.shift)
                        == IsaLoadValue(cfg.rv64, k, LoadLE(h.mem, Addr(t), LoadWidth(k)))
    ensures LoadEffect(cfg, t, WithEpc(h, 0), Epc(h), op) == Outcome(0, IsaLoad(cfg.rv64, h, t, insn, k))
  {
    var x := LoadLE(h.mem, Addr(t), LoadWidth(k));
    var d := Slot(LoadDest(k, insn));
    AdvanceByLength(Epc(h), op.insn, insn);
    WriteThenStep(h, op.fp, d, x, IsaLoadValue(cfg.rv64, k, x), Advance(Epc(h), insn));
  }

  /**
   * A known load the kernel can carry out, from reachable memory, is
   * emulated: the handler returns 0 and leaves the hart as the ISA's
   * definition of the load would.
   */
  lemma {:induction false} ScalarLoadEmulated(cfg: Config, enabled: bool, t: Trap, h: Hart, insn: Insn, k: LoadKind)
    requires WellFormed(h) && (!t.user ==> KernelLoadReachable(cfg, t, h))
    requires enabled && !(t.user && t.sigbus)
    requires GetInsn(h.mem, Epc(h)) == Some(insn) && ClassifyLoad(cfg.rv64, insn) == Some(k)
    requires (FpLoad(k) ==> cfg.fpu) && Mapped(h.mem, Addr(t), LoadWidth(k))
    ensures ScalarLoad(cfg, enabled, t, h) == Outcome(0, IsaLoad(cfg.rv64, h, t, insn, k))
  {
    ScalarLoadIsEffect(cfg, enabled, t, h, insn, k);
    ArmIsIsa(cfg, t, h, insn, k);
  }

  /** The arm of the load chain for `k`, followed by `LoadEffect`, is the ISA's load. */
  lemma {:induction false} ArmIsIsa(cfg: Config, t: Trap, h: Hart, insn: Insn, k: LoadKind)
    requires WellFormed(h) && LoadGuard(cfg.rv64, k, insn)
    requires (FpLoad(k) ==> cfg.fpu) && Mapped(h.mem, Addr(t), LoadWidth(k))
    ensures LoadEffect(cfg, t, WithEpc(h, 0), Epc(h), LoadOpOf(cfg.rv64, k, insn)) == Outcome(0, IsaLoad(cfg.rv64, h, t, insn, k))
  {
    if FpLoad(k) {
      FpArmIsIsa(cfg, t, h, insn, k);
    } else {
      IntArmIsIsa(cfg, t, h, insn, k);
    }
  }

  lemma {:induction false} FpArmIsIsa(cfg: Config, t: Trap, h: Hart, insn: Insn, k: LoadKind)
    requires WellFormed(h) && LoadGuard(cfg.rv64, k, insn) && FpLoad(k)
    requires cfg.fpu && Mapped(h.mem, Addr(t), LoadWidth(k))
    ensures LoadEffect(cfg, t, WithEpc(h, 0), Epc(h), LoadOpOf(cfg.rv64, k, insn)) == Outcome(0, IsaLoad(cfg.rv64, h, t, insn, k))
  {
    LoadOpMeaning(cfg.rv64, k, insn);
    LoadEffectIsIsa(cfg, t, h, LoadOpOf(cfg.rv64, k, insn), insn, k);
  }

  lemma {:induction false} IntArmIsIsa(cfg: Config, t: Trap, h: Hart, insn: Insn, k: LoadKind)
    requires WellFormed(h) && LoadGuard(cfg.rv64, k, insn) && !FpLoad(k)
    requires Mapped(h.mem, Addr(t), LoadWidth(k))
    ensures LoadEffect(cfg, t, WithEpc(h, 0), Epc(h), LoadOpOf(cfg.rv64, k, insn)) == Outcome(0, IsaLoad(cfg.rv64, h, t, insn, k))
  {
    LoadOpMeaning(cfg.rv64, k, insn);
    LoadedValue(cfg.rv64, k, insn, h.mem, Addr(t));
    LoadEffectIsIsa(cfg, t, h, LoadOpOf(cfg.rv64, k, insn), insn, k);
  }

  /** The shift pair of an integer arm turns the bytes read into the value the ISA loads. */
  lemma {:induction false} LoadedValue(rv64: bool, k: LoadKind, insn: Insn, mem: Memory, a: int)
    requires LoadGuard(rv64, k, insn) && !FpLoad(k) && Mapped(mem, a, LoadWidth(k))
    ensures LoadOpOf(rv64, k, insn).shift < (if rv64 then 64 else 32)
    ensures ShiftExtend(rv64, LoadLE(mem, a, LoadWidth(k)), LoadOpOf(rv64, k, insn).shift)
            == IsaLoadValue(rv64, k, LoadLE(mem, a, LoadWidth(k)))
  {
    LoadShiftValue(rv64, k, insn);
    LoadFits(mem, a, LoadWidth(k));
    LoadExtendMeaning(rv64, k, insn, LoadLE(mem, a, LoadWidth(k)));
  }

  /** A known FP load on a kernel without FPU support fails with -EOPNOTSUPP, leaving `epc` cleared. */
  lemma {:induction false} ScalarLoadNoFpu(cfg: Config, enabled: bool, t: Trap, h: Hart, insn: Insn, k: LoadKind)
    requires WellFormed(h) && (!t.user ==> KernelLoadReachable(cfg, t, h))
    requires enabled && !(t.user && t.sigbus)
    requires GetInsn(h.mem, Epc(h)) == Some(insn) && ClassifyLoad(cfg.rv64, insn) == Some(k)
    requires FpLoad(k) && !cfg.fpu
    ensures ScalarLoad(cfg, enabled, t, h) == Outcome(-EOPNOTSUPP, WithEpc(h, 0))
  {
    LoadOpShape(cfg.rv64, k, insn);
    ScalarLoadIsEffect(cfg, enabled, t, h, insn, k);
    LoadEffectAbandoned(cfg, t, WithEpc(h, 0), Epc(h), LoadOpOf(cfg.rv64, k, insn));
  }

  /**
   * A known load from unreachable memory can only come from user mode; it
   * fails with -1 when the copy faults, leaving `epc` cleared.
   */
  lemma {:induction false} ScalarLoadFault(cfg: Config, enabled: bool, t: Trap, h: Hart, insn: Insn, k: LoadKind)
    requires WellFormed(h) && (!t.user ==> KernelLoadReachable(cfg, t, h))
    requires enabled && !(t.user && t.sigbus)
    requires GetInsn(h.mem, Epc(h)) == Some(insn) && ClassifyLoad(cfg.rv64, insn) == Some(k)
    requires (FpLoad(k) ==> cfg.fpu) && !Mapped(h.mem, Addr(t), LoadWidth(k))
    ensures t.user && ScalarLoad(cfg, enabled, t, h) == Outcome(-1, WithEpc(h, 0))
  {
    LoadOpShape(cfg.rv64, k, insn);
    KernelLoadMapped(cfg, t, h, insn, k);
    ScalarLoadIsEffect(cfg, enabled, t, h, insn, k);
    LoadEffectAbandoned(cfg, t, WithEpc(h, 0), Epc(h), LoadOpOf(cfg.rv64, k, insn));
  }

  lemma {:induction false} LoadOpShape(rv64: bool, k: LoadKind, insn: Insn)
    requires LoadGuard(rv64, k, insn)
    ensures LoadOpOf(rv64, k, insn).len == LoadWidth(k) && LoadOpOf(rv64, k, insn).fp == FpLoad(k)
  {
    LoadOpMeaning(rv64, k, insn);
  }

  /** `LoadEffect` stops with the FPU check, or with a faulting copy, before it changes anything. */
  lemma {:induction false} LoadEffectAbandoned(cfg: Config, t: Trap, c: Hart, epc: bv64, op: LoadOp)
    requires WellFormed(c)
    requires (op.len == 2 || op.len == 4 || op.len == 8) && op.shift < (if cfg.rv64 then 64 else 32)
    ensures op.fp && !cfg.fpu ==> LoadEffect(cfg, t, c, epc, op) == Outcome(-EOPNOTSUPP, c)
    ensures !(op.fp && !cfg.fpu) && !Mapped(c.mem, Addr(t), op.len) ==> LoadEffect(cfg, t, c, epc, op) == Outcome(-1, c)
  {
  }

  /** A trapping kernel load that passes the FPU check reads reachable memory. */
  lemma {:induction false} KernelLoadMapped(cfg: Config, t: Trap, h: Hart, insn: Insn, k: LoadKind)
    requires WellFormed(h) && (!t.user ==> KernelLoadReachable(cfg, t, h))
    requires GetInsn(h.mem, Epc(h)) == Some(insn) && ClassifyLoad(cfg.rv64, insn) == Some(k)
    ensures !t.user ==> (FpLoad(k) && !cfg.fpu) || Mapped(h.mem, Addr(t), LoadWidth(k))
  {
    LoadOpShape(cfg.rv64, k, insn);
  }

  /** The value the ISA stores for `k`: x0 reads as zero, a single-precision register at its low 32 bits. */
  function IsaStoreValue(h: Hart, k: StoreKind, insn: Insn): bv64
    requires WellFormed(h)
  {
    var n := Slot(StoreSrcReg(k, insn));
    if !FpStore(k) then (if n == 0 then 0 else h.regs[n])
    else if StoreWidth(k) == 8 then h.fpr[n]
    else Low32(h.fpr[n])
  }

  /** The store handler refuses in the same cases as the load handler, leaving the hart as it was. */
  lemma {:induction false} ScalarStoreRefused(cfg: Config, enabled: bool, t: Trap, h: Hart)
    requires WellFormed(h) && (!t.user ==> KernelStoreReachable(cfg, t, h))
    requires !enabled || (t.user && t.sigbus) || !Fetchable(h.mem, Epc(h))
             || (GetInsn(h.mem, Epc(h)).Some? && ClassifyStore(cfg.rv64, GetInsn(h.mem, Epc(h)).value).None?)
    ensures ScalarStore(cfg, enabled, t, h) == Outcome(-1, h)
  {
    GetInsnMeaning(h.mem, Epc(h));
    RestoreEpc(h);
  }

  /**
   * A store as the ISA defines it, carried out by the hart that trapped on
   * it: the low `StoreWidth(k)` bytes of the register the ISA names are
   * written little-endian at `badaddr`, reading an FP register marks the
   * FP state dirty, `epc` moves past the instruction, and no register
   * changes.
   */
  function IsaStore(h: Hart, t: Trap, insn: Insn, k: StoreKind): (r: Hart)
    requires WellFormed(h)
    ensures WellFormed(r)
  {
    var written := h.(mem := StoreLE(h.mem, Addr(t), IsaStoreValue(h, k, insn), StoreWidth(k)),
                      fsDirty := h.fsDirty || FpStore(k));
    WithEpc(written, Advance(Epc(h), insn))
  }

  /** Past the refusals, the store handler is `StoreEffect` for the arm `k` selects. */
  lemma {:induction false} ScalarStoreIsEffect(cfg: Config, enabled: bool, t: Trap, h: Hart, insn: Insn, k: StoreKind)
    requires WellFormed(h) && (!t.user ==> KernelStoreReachable(cfg, t, h))
    requires enabled && !(t.user && t.sigbus)
    requires GetInsn(h.mem, Epc(h)) == Some(insn) && ClassifyStore(cfg.rv64, insn) == Some(k)
    ensures ScalarStore(cfg, enabled, t, h) == StoreEffect(cfg, t, WithEpc(h, 0), Epc(h), insn, StoreOpOf(k, insn))
  {
  }

  /**
   * The arm for `k` reads the register the ISA names, from the frame whose
   * `epc` slot is cleared, so that x0 reads as zero.
   */
  lemma {:induction false} StoreSourceIsIsa(cfg: Config, h: Hart, insn: Insn, k: StoreKind)
    requires WellFormed(h) && StoreGuard(cfg.rv64, k, insn) && (FpStore(k) ==> cfg.fpu)
    ensures StoreSource(cfg.fpu, WithEpc(h, 0), StoreOpOf(k, insn).src) == (IsaStoreValue(h, k, insn), FpStore(k))
  {
    StoreOpMeaning(cfg.rv64, k, insn);
  }

  /** `StoreEffect` carries out the store `IsaStore` describes once the arm's assignments mean what the ISA says. */
  lemma {:induction false} StoreEffectIsIsa(cfg: Config, t: Trap, h: Hart, insn: Insn, op: StoreOp, k: StoreKind)
    requires WellFormed(h) && (op.len == 2 || op.len == 4 || op.len == 8)
    requires op.len == StoreWidth(k) && op.fp == FpStore(k)
    requires (op.fp ==> cfg.fpu) && Mapped(h.mem, Addr(t), StoreWidth(k))
    requires StoreSource(cfg.fpu, WithEpc(h, 0), op.src) == (IsaStoreValue(h, k, insn), FpStore(k))
    ensures StoreEffect(cfg, t, WithEpc(h, 0), Epc(h), insn, op) == Outcome(0, IsaStore(h, t, insn, k))
  {
    var c := WithEpc(h, 0);
    var m := StoreLE(h.mem, Addr(t), IsaStoreValue(h, k, insn), StoreWidth(k));
    var e := Advance(Epc(h), insn);
    var d := h.fsDirty || FpStore(k);
    assert (if FpStore(k) then c.(fsDirty := true) else c).(mem := m) == c.(mem := m, fsDirty := d);
    assert c.regs[0 := e] == h.regs[0 := e];
  }

  /** The arm of the store chain for `k`, followed by `StoreEffect`, is the ISA's store. */
  lemma {:induction false} StoreArmIsIsa(cfg: Config, t: Trap, h: Hart, insn: Insn, k: StoreKind)
    requires WellFormed(h) && StoreGuard(cfg.rv64, k, insn)
    requires (FpStore(k) ==> cfg.fpu) && Mapped(h.mem, Addr(t), StoreWidth(k))
    ensures StoreEffect(cfg, t, WithEpc(h, 0), Epc(h), insn, StoreOpOf(k, insn)) == Outcome(0, IsaStore(h, t, insn, k))
  {
    StoreOpMeaning(cfg.rv64, k, insn);
    StoreSourceIsIsa(cfg, h, insn, k);
    StoreEffectIsIsa(cfg, t, h, insn, StoreOpOf(k, insn), k);
  }

  /**
   * A known store the kernel can carry out, to reachable memory, is
   * emulated: the handler returns 0 and leaves the hart as the ISA's
   * definition of the store would.
   */
  lemma {:induction false} ScalarStoreEmulated(cfg: Config, enabled: bool, t: Trap, h: Hart, insn: Insn, k: StoreKind)
    requires WellFormed(h) && (!t.user ==> KernelStoreReachable(cfg, t, h))
    requires enabled && !(t.user && t.sigbus)
    requires GetInsn(h.mem, Epc(h)) == Some(insn) && ClassifyStore(cfg.rv64, insn) == Some(k)
    requires (FpStore(k) ==> cfg.fpu) && Mapped(h.mem, Addr(t), StoreWidth(k))
    ensures ScalarStore(cfg, enabled, t, h) == Outcome(0, IsaStore(h, t, insn, k))
  {
    ScalarStoreIsEffect(cfg, enabled, t, h, insn, k);
    StoreArmIsIsa(cfg, t, h, insn, k);
  }

  /**
   * A known store that cannot be completed leaves `epc` cleared:
   * -EOPNOTSUPP with nothing else changed for an FP store without FPU
   * support, -1 with memory untouched when the user copy faults.
   */
  lemma {:induction false} ScalarStoreAbandoned(cfg: Config, enabled: bool, t: Trap, h: Hart, insn: Insn, k: StoreKind)
    requires WellFormed(h) && (!t.user ==> KernelStoreReachable(cfg, t, h))
    requires enabled && !(t.user && t.sigbus)
    requires GetInsn(h.mem, Epc(h)) == Some(insn) && ClassifyStore(cfg.rv64, insn) == Some(k)
    ensures FpStore(k) && !cfg.fpu ==> ScalarStore(cfg, enabled, t, h) == Outcome(-EOPNOTSUPP, WithEpc(h, 0))
    ensures (FpStore(k) ==> cfg.fpu) && !Mapped(h.mem, Addr(t), StoreWidth(k)) ==>
              t.user && ScalarStore(cfg, enabled, t, h) == Outcome(-1, WithEpc(h, 0).(fsDirty := h.fsDirty || FpStore(k)))
  {
    StoreOpShape(cfg.rv64, k, insn);
    ScalarStoreIsEffect(cfg, enabled, t, h, insn, k);
    if FpStore(k) && !cfg.fpu {
      assert StoreSource(cfg.fpu, WithEpc(h, 0), StoreOpOf(k, insn).src) == (0, false);
    } else if !Mapped(h.mem, Addr(t), StoreWidth(k)) {
      StoreSourceDirty(cfg, h, insn, k);
      if !t.user {
        KernelStoreMapped(cfg, t, h, insn, k);
      }
    }
  }

  lemma {:induction false} StoreOpShape(rv64: bool, k: StoreKind, insn: Insn)
    requires StoreGuard(rv64, k, insn)
    ensures StoreOpOf(k, insn).len == StoreWidth(k) && StoreOpOf(k, insn).fp == FpStore(k)
    ensures StoreOpOf(k, insn).src.Gpr? <==> !FpStore(k)
  {
    StoreOpMeaning(rv64, k, insn);
  }

  /** Reading the source of a store dirties the FP state exactly for an FP store with FPU support. */
  lemma {:induction false} StoreSourceDirty(cfg: Config, h: Hart, insn: Insn, k: StoreKind)
    requires WellFormed(h) && StoreGuard(cfg.rv64, k, insn)
    ensures StoreSource(cfg.fpu, WithEpc(h, 0), StoreOpOf(k, insn).src).1 == (FpStore(k) && cfg.fpu)
  {
    StoreOpShape(cfg.rv64, k, insn);
  }

  /** A trapping kernel store that passes the FPU check writes reachable memory. */
  lemma {:induction false} KernelStoreMapped(cfg: Config, t: Trap, h: Hart, insn: Insn, k: StoreKind)
    requires WellFormed(h) && KernelStoreReachable(cfg, t, h)
    requires GetInsn(h.mem, Epc(h)) == Some(insn) && ClassifyStore(cfg.rv64, insn) == Some(k)
    ensures (FpStore(k) && !cfg.fpu) || Mapped(h.mem, Addr(t), StoreWidth(k))
  {
    StoreOpShape(cfg.rv64, k, insn);
  }

  /** The per-CPU vector misaligned-access speed as `hwprobe` reports it. */
  datatype VectorSpeed = VectorUnknown | VectorSlow | VectorFast | VectorUnsupported

  /** The vector handler's return value, the CPU's new vector speed and the hart. */
  datatype VectorOutcome = VectorOutcome(ret: int, speed: VectorSpeed, hart: Hart)

  /**
   * `handle_vector_misaligned_load` on the CPU whose vector speed is
   * `speed`: vector accesses are not emulated; the only trap it completes
   * is the one of the boot-time probe, which it recognises by the speed
   * still being unknown and answers by recording the speed as unsupported
   * and stepping over the probing instruction.
   */
  function VectorLoad(speed: VectorSpeed, h: Hart): VectorOutcome
    requires WellFormed(h)
  {
    match GetInsn(h.mem, Epc(h))
    case None => VectorOutcome(-1, speed, h)
    case Some(insn) =>
      if speed == VectorUnknown then VectorOutcome(0, VectorUnsupported, WithEpc(h, Advance(Epc(h), insn)))
      else VectorOutcome(-1, speed, WithEpc(h, Epc(h)))
  }

  /**
   * The vector handler succeeds exactly on a probe trap at a readable
   * instruction; then it records the speed as unsupported and steps over
   * the instruction, and otherwise it returns -1 and changes nothing.
   */
  lemma {:induction false} VectorLoadMeaning(speed: VectorSpeed, h: Hart)
    requires WellFormed(h)
    ensures VectorLoad(speed, h).ret == 0 <==> speed == VectorUnknown && Fetchable(h.mem, Epc(h))
    ensures VectorLoad(speed, h).ret == 0 ==>
              VectorLoad(speed, h).speed == VectorUnsupported
              && VectorLoad(speed, h).hart == WithEpc(h, Advance(Epc(h), GetInsn(h.mem, Epc(h)).value))
    ensures VectorLoad(speed, h).ret != 0 ==> VectorLoad(speed, h) == VectorOutcome(-1, speed, h)
  {
    GetInsnMeaning(h.mem, Epc(h));
    assert WithEpc(h, Epc(h)) == h by {
      assert h.regs[0 := h.regs[0]] == h.regs;
    }
  }
}

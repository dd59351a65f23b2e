/**
 * The per-CPU state of the AMD machine-check code and the operations that
 * change it: bank configuration and the init walk (`smca_configure`,
 * `disable_err_thresholding`, `prepare_threshold_block`,
 * `mce_amd_feature_init`, `deferred_error_interrupt_enable`), the sysfs
 * device (`mce_threshold_create_device`, `mce_threshold_remove_device`),
 * the two interrupt handlers and the sysfs attribute stores.
 *
 * Each method is proved against the pure specifications of `AmdBlocks`,
 * `AmdThreshold` and `AmdLog`, or against the functions defined here.
 */
module AmdMce {
  import opened Wrappers
  import opened McaRegs
  import opened SmcaCatalog
  import opened AmdThreshold
  import opened AmdNames
  import opened AmdBlocks
  import opened AmdLog

  /** `MSR_CU_DEF_ERR`: the deferred-error LVT and interrupt-type register. */
  const MSR_CU_DEF_ERR: u32 := 0xC000_0410
  /** `MSR_K7_HWCR`; its bit 18 (McStatusWrEn) makes MCA registers writable. */
  const MSR_K7_HWCR: u32 := 0xC001_0015
  const MASK_DEF_LVTOFF: bv32 := 0xF0
  const MASK_DEF_INT_TYPE: bv32 := 0x6
  const DEF_LVT_OFF: bv4 := 2
  const DEF_INT_TYPE_APIC: bv32 := 0x2
  const SMCA_THR_LVT_OFF: bv32 := 0xF000
  /** MCA_CONFIG bit 0 of the low word: the bank supports the extended registers. */
  const MCI_CONFIG_MCAX: bv32 := 0x1
  const ENODEV: int := 19
  const EINVAL: int := 22

  /** `mce_num_banks`: the bank bitmaps are 64 bits wide. */
  type BankCount = n: nat | n <= MAX_NR_BANKS

  /** A row of `smca_hwid_mcatypes[]`. */
  type CatalogRow = i: nat | i < 36

  /** The two extended-LVT vectors the code reserves offsets for. */
  datatype Vector = ThresholdVector | DeferredVector

  /** One `struct smca_bank`: the catalog row (`hwid`), the IPID low word (`id`) and the `u8` `sysfs_id`. */
  datatype SmcaBank = SmcaBank(hwid: Option<CatalogRow>, id: bv32, sysfsId: nat)

  /** What device removal does, in order. */
  datatype Event = BanksUnpublished | BankRemoved(bank: nat) | BanksFreed

  // ---------------------------------------------------------------------
  // Bank configuration (SMCA)

  /**
   * The high word `smca_configure` writes to MCA_CONFIG: MCAX (bit 0) set,
   * and DeferredIntType (bits 6:5) set to APIC when the bank supports it
   * (low bit 5) and no type is programmed yet.
   */
  function ConfigHi(lo: bv32, hi: bv32): bv32
  {
    var h := hi | 1;
    if lo & 0x20 != 0 && (h >> 5) & 3 == 0 then h | 0x20 else h
  }

  /**
   * MCAX is acknowledged, the deferred interrupt type becomes APIC exactly
   * when supported and unset, and no other bit changes.
   */
  lemma ConfigHiBits(lo: bv32, hi: bv32)
    ensures ConfigHi(lo, hi) & 1 == 1
    ensures (ConfigHi(lo, hi) >> 5) & 3 == (if lo & 0x20 != 0 && (hi >> 5) & 3 == 0 then 1 else (hi >> 5) & 3)
    ensures ConfigHi(lo, hi) & 0xFFFF_FFDE == hi & 0xFFFF_FFDE
  {
    if lo & 0x20 != 0 && ((hi | 1) >> 5) & 3 == 0 {
      assert ((hi | 1) >> 5) & 3 == (hi >> 5) & 3;
      assert ((hi | 1 | 0x20) >> 5) & 3 == 1;
      assert (hi | 1 | 0x20) & 0xFFFF_FFDE == hi & 0xFFFF_FFDE;
    } else {
      assert ((hi | 1) >> 5) & 3 == (hi >> 5) & 3;
      assert (hi | 1) & 0xFFFF_FFDE == hi & 0xFFFF_FFDE;
    }
  }

  /** The MCA_CONFIG write of `smca_configure`; a bank whose MCA_CONFIG faults is left alone. */
  function ConfigureMcax(m: MsrFile, bank: nat): MsrFile
  {
    var a := SmcaConfig(bank);
    if a in m then m[a := Reg(m[a].lo, ConfigHi(m[a].lo, m[a].hi))] else m
  }

  /** `lsb_in_status` after `smca_configure`: MCA_CONFIG low bit 8, when MCA_CONFIG can be read. */
  function LsbAfterConfig(lsb: set<nat>, m: MsrFile, bank: nat): set<nat>
  {
    var a := SmcaConfig(bank);
    if a !in m then lsb
    else if m[a].lo & 0x100 != 0 then lsb + {bank}
    else lsb - {bank}
  }

  /**
   * `smca_set_misc_banks_map`: the bank has MISC1..4 when MCA_CONFIG says it
   * supports the extended registers and MISC0's block pointer is nonzero.
   */
  predicate HasMiscBlocks(m: MsrFile, bank: nat)
  {
    SmcaConfig(bank) in m && m[SmcaConfig(bank)].lo & MCI_CONFIG_MCAX != 0
    && SmcaMisc0(bank) in m && m[SmcaMisc0(bank)].lo & MASK_BLKPTR_LO != 0
  }

  /**
   * `smca_misc_banks_map` decides whether an SMCA bank has blocks beyond
   * MISC0: block addresses 1..4 are nonzero exactly for mapped banks.
   */
  lemma MiscBanksEnableBlocks(cfg: AddrCfg, current: u32, low: bv32, bank: nat, block: nat)
    requires cfg.smca && bank < cfg.numBanks <= MAX_NR_BANKS && 0 < block < NR_BLOCKS
    ensures GetBlockAddress(cfg, current, low, bank, block) != 0 <==> bank in cfg.miscBanks
  {
    if bank in cfg.miscBanks {
      U32Small(SMCA_BASE + 0x10 * bank + 0xA + (block - 1));
    }
  }

  /** `HWID_MCATYPE` of an IPID high word: HWID in bits 11:0, MCATYPE in bits 31:16. */
  function IpidKey(hi: bv32): nat
  {
    HwidMcatype((hi & 0xFFF) as int, ((hi >> 16) as bv16) as int)
  }

  /** The search loop of `smca_configure` over `smca_hwid_mcatypes[]`: the first row holding `key`. */
  method FindHwid(table: seq<SmcaHwid>, key: nat) returns (r: Option<nat>)
    ensures r == FindFrom(table, key, 0)
  {
    var i := 0;
    while i < |table|
      invariant 0 <= i <= |table|
      invariant FindFrom(table, key, i) == FindFrom(table, key, 0)
    {
      if table[i].hwidMcatype == key {
        return Some(i);
      }
      i := i + 1;
    }
    return None;
  }

  /** `smca_get_bank_type` on the `smca_banks` of a CPU; `None` is `N_SMCA_BANK_TYPES`. */
  function BankTypeOf(banks: map<nat, SmcaBank>, bank: nat): Option<BankType>
  {
    if bank >= MAX_NR_BANKS || bank !in banks || banks[bank].hwid.None? then None
    else Some(Catalog[banks[bank].hwid.value].bankType)
  }

  /** The per-CPU classification `smca_configure` leaves behind. */
  datatype Classified = Classified(banks: map<nat, SmcaBank>, counts: map<BankType, nat>)

  function CountOf(counts: map<BankType, nat>, t: BankType): nat
  {
    if t in counts then counts[t] else 0
  }

  /**
   * The IPID lookup of `smca_configure`: a bank whose IPID reads and whose
   * key is in the catalog gets that row, its IPID low word, and the next
   * `sysfs_id` of its type (a `u8` counter, so it wraps at 256).
   */
  function Classify(c: Classified, ipid: Option<Reg>, bank: nat): Classified
  {
    if ipid.None? then c
    else match Find(IpidKey(ipid.value.hi))
      case None => c
      case Some(i) =>
        var t := Catalog[i].bankType;
        Classified(c.banks[bank := SmcaBank(Some(i), ipid.value.lo, CountOf(c.counts, t))],
                   c.counts[t := (CountOf(c.counts, t) + 1) % 256])
  }

  /**
   * After classification a bank's type is the catalog's type for its IPID
   * (and an IPID carrying a catalog key gets that entry's type); a bank
   * with no match keeps its old type; the bank's sequence number is the
   * count of its type before it, and the count moves on by one.
   */
  lemma {:induction false} ClassifyRecognises(c: Classified, ipid: Option<Reg>, bank: nat)
    requires bank < MAX_NR_BANKS
    ensures ipid.Some? && Find(IpidKey(ipid.value.hi)).Some? ==>
              var i := Find(IpidKey(ipid.value.hi)).value;
              var t := Catalog[i].bankType;
              && BankTypeOf(Classify(c, ipid, bank).banks, bank) == Some(t)
              && Classify(c, ipid, bank).banks[bank].sysfsId == CountOf(c.counts, t)
              && CountOf(Classify(c, ipid, bank).counts, t) == (CountOf(c.counts, t) + 1) % 256
    ensures ipid.Some? && (exists i :: 0 <= i < |Catalog| && Catalog[i].hwidMcatype == IpidKey(ipid.value.hi)) ==>
              Find(IpidKey(ipid.value.hi)).Some?
    ensures ipid.None? || Find(IpidKey(ipid.value.hi)).None? ==> Classify(c, ipid, bank) == c
    ensures forall b :: b != bank ==> BankTypeOf(Classify(c, ipid, bank).banks, b) == BankTypeOf(c.banks, b)
  {
    if ipid.Some? && (exists i :: 0 <= i < |Catalog| && Catalog[i].hwidMcatype == IpidKey(ipid.value.hi)) {
      var i :| 0 <= i < |Catalog| && Catalog[i].hwidMcatype == IpidKey(ipid.value.hi);
      CatalogClassifiesEachEntry(i);
    }
  }

  // ---------------------------------------------------------------------
  // Erratum workarounds

  /**
   * `msr_clear_bit(msr, 62)`: CntP (high bit 30) cleared, when the register
   * reads.
   */
  function ClearCntp(m: MsrFile, a: u32): (m': MsrFile)
    ensures m'.Keys == m.Keys
    ensures forall k :: k in m && k != a ==> m'[k] == m[k]
  {
    if a in m then m[a := CntpCleared(m[a])] else m
  }

  function CntpCleared(r: Reg): Reg
  {
    Reg(r.lo, r.hi & 0xBFFF_FFFF)
  }

  /** The first `n` registers of `addrs` with CntP cleared, in order. */
  function ClearCntpAll(m: MsrFile, addrs: seq<u32>, n: nat): MsrFile
    requires n <= |addrs|
  {
    if n == 0 then m else ClearCntp(ClearCntpAll(m, addrs, n - 1), addrs[n - 1])
  }

  /**
   * A register whose CntP is cleared is no longer usable for thresholding:
   * neither the init walk nor the allocator takes it.
   */
  lemma ClearedNotUsable(m: MsrFile, a: u32)
    requires a in m
    ensures !Usable(ClearCntp(m, a)[a].hi)
    ensures ClearCntp(m, a)[a].lo == m[a].lo
  {
    assert (m[a].hi & 0xBFFF_FFFF) & 0x4000_0000 == 0;
  }

  lemma ClearCntpWrite(m: MsrFile, a: u32, h: u32, r: Reg)
    requires a != h
    ensures ClearCntp(Write(m, h, r), a) == Write(ClearCntp(m, a), h, r)
  {
    if a in m && h in m {
      assert m[h := r][a := CntpCleared(m[a])] == m[a := CntpCleared(m[a])][h := r];
    }
  }

  /** Clearing CntP commutes with a write to a register not among those cleared, and leaves that register alone. */
  lemma {:induction false} ClearCntpAllWrite(m: MsrFile, addrs: seq<u32>, n: nat, h: u32, r: Reg)
    requires n <= |addrs| && h !in addrs
    ensures ClearCntpAll(Write(m, h, r), addrs, n) == Write(ClearCntpAll(m, addrs, n), h, r)
    ensures ClearCntpAll(m, addrs, n).Keys == m.Keys
    ensures h in m ==> ClearCntpAll(m, addrs, n)[h] == m[h]
  {
    if n > 0 {
      ClearCntpAllWrite(m, addrs, n - 1, h, r);
      ClearCntpWrite(ClearCntpAll(m, addrs, n - 1), addrs[n - 1], h, r);
    }
  }

  // ---------------------------------------------------------------------
  // The init walk

  /** The thresholding LVT offset field of MSR_CU_DEF_ERR on SMCA parts (bits 15:12). */
  function ThrLvtOff(lo: bv32): bv4
  {
    ((lo & SMCA_THR_LVT_OFF) >> 12) as bv4
  }

  /** What `prepare_threshold_block` decides: the offset it returns, whether it enables the thresholding IRQ, and the block it restarts (none when it bails out). */
  datatype Prepared = Prepared(offset: Offset, irq: bool, init: Option<ThresholdBlock>)

  /**
   * The fields of a block's high word after its init restart: counter
   * preset for the maximal limit (zero), overflow cleared, counting
   * enabled, APIC delivery exactly for an interrupt-capable block.
   */
  function ArmedMisc(f: MiscHi, capable: bool): MiscHi
  {
    f.(count := 0, overflow := false, intType := if capable then INT_TYPE_APIC else 0, countEn := true)
  }

  /** An init restart of a fresh block (limit at maximum, interrupts on when capable) arms it. */
  lemma {:induction false} InitRestartArms(f: MiscHi, b: ThresholdBlock, off: Offset)
    requires b.thresholdLimit == THRESHOLD_MAX && b.interruptEnable == b.interruptCapable
    ensures RestartMisc(f, ThreshRestart(b, true, off, 0)) == ArmedMisc(f, b.interruptCapable)
  {
    var tr := ThreshRestart(b, true, off, 0);
    RestartResetsCounter(f, tr);
    RestartInterruptType(f, tr);
    RestartKeepsOtherFields(f, tr);
  }

  /** A block's register after its init restart: the low word kept, the high word armed. */
  function ArmedReg(r: Reg, capable: bool): Reg
  {
    Reg(r.lo, EncodeMisc(ArmedMisc(DecodeMisc(r.hi), capable)))
  }

  /**
   * What the init walk does to the register file for one visited register:
   * an unusable block is skipped, and so is an interrupt-capable block on an
   * SMCA part whose MSR_CU_DEF_ERR faults (`prepare_threshold_block` bails
   * out before the restart); any other block is armed.
   */
  function InitArm(m: MsrFile, smca: bool, cuPresent: bool, bank: nat, p: Probe): MsrFile
  {
    var capable := LvtInterruptSupported(bank, p.reg.hi);
    if !Usable(p.reg.hi) || (smca && capable && !cuPresent) then m
    else Write(m, p.address, ArmedReg(p.reg, capable))
  }

  /** The register file after the init walk has visited `ps`, in order. */
  function InitArmAll(m: MsrFile, smca: bool, cuPresent: bool, bank: nat, ps: seq<Probe>): (r: MsrFile)
    ensures r.Keys == m.Keys
  {
    if ps == [] then m
    else InitArm(InitArmAll(m, smca, cuPresent, bank, ps[..|ps| - 1]), smca, cuPresent, bank, ps[|ps| - 1])
  }

  /** One more visited register is handled on top of the ones before it. */
  lemma InitArmAllStep(m: MsrFile, smca: bool, cuPresent: bool, bank: nat, done: seq<Probe>, p: Probe)
    ensures InitArmAll(m, smca, cuPresent, bank, done + [p])
            == InitArm(InitArmAll(m, smca, cuPresent, bank, done), smca, cuPresent, bank, p)
  {
    assert (done + [p])[..|done|] == done;
  }

  /** The thresholding LVT offset the init walk carries from block to block, and `thresholding_irq_en`. */
  datatype Lvt = Lvt(offset: Offset, irqEn: bool)

  /**
   * What `prepare_threshold_block` does to the LVT offset and the IRQ flag
   * for one visited register, MSR_CU_DEF_ERR read from `m`: nothing for an
   * unusable or interrupt-less block or an SMCA part whose MSR_CU_DEF_ERR
   * faults; otherwise the candidate offset is reserved and the flag set
   * when the reservation holds it.
   */
  function PrepareLvt(m: MsrFile, smca: bool, accepts: set<(bv4, Vector)>, bank: nat, p: Probe, l: Lvt): (r: Lvt)
    ensures l.offset.Some? ==> r.offset == l.offset && (l.irqEn ==> r.irqEn)
    ensures l.offset.None? ==> r.irqEn == (l.irqEn || r.offset.Some?)
  {
    if !Usable(p.reg.hi) || !LvtInterruptSupported(bank, p.reg.hi) || (smca && MSR_CU_DEF_ERR !in m) then l
    else
      var cand := if smca then ThrLvtOff(m[MSR_CU_DEF_ERR].lo) else DecodeMisc(p.reg.hi).lvtOff;
      var off := Reserve(l.offset, cand, (cand, ThresholdVector) in accepts);
      Lvt(off, l.irqEn || off == Some(cand))
  }

  /**
   * The LVT offset and the IRQ flag after the init walk has visited `ps`
   * in order, each register handled on the register file the ones before
   * it left.  A reservation is never replaced, and from no reservation the
   * flag ends set exactly when it was set or a reservation succeeded.
   */
  function WalkLvt(m: MsrFile, smca: bool, accepts: set<(bv4, Vector)>, bank: nat, ps: seq<Probe>, l: Lvt): (r: Lvt)
    ensures l.offset.Some? ==> r.offset == l.offset && (l.irqEn ==> r.irqEn)
    ensures l.offset.None? ==> r.irqEn == (l.irqEn || r.offset.Some?)
  {
    if ps == [] then l
    else
      var init := ps[..|ps| - 1];
      PrepareLvt(InitArmAll(m, smca, MSR_CU_DEF_ERR in m, bank, init), smca, accepts, bank, ps[|ps| - 1],
                 WalkLvt(m, smca, accepts, bank, init, l))
  }

  /** One more visited register is handled on top of the ones before it. */
  lemma WalkLvtStep(m: MsrFile, smca: bool, accepts: set<(bv4, Vector)>, bank: nat, done: seq<Probe>, p: Probe, l: Lvt)
    ensures WalkLvt(m, smca, accepts, bank, done + [p], l)
            == PrepareLvt(InitArmAll(m, smca, MSR_CU_DEF_ERR in m, bank, done), smca, accepts, bank, p,
                          WalkLvt(m, smca, accepts, bank, done, l))
  {
    assert (done + [p])[..|done|] == done;
  }

  /**
   * What the init walk leaves in a usable block's register (`before` is
   * what it read): the block armed, low word kept; or, on an SMCA part
   * whose MSR_CU_DEF_ERR faults, an interrupt-capable block untouched.
   */
  predicate InitEffect(smca: bool, cuPresent: bool, bank: nat, before: Reg, after: Reg)
  {
    if smca && LvtInterruptSupported(bank, before.hi) && !cuPresent then after == before
    else after.lo == before.lo && DecodeMisc(after.hi) == ArmedMisc(DecodeMisc(before.hi), LvtInterruptSupported(bank, before.hi))
  }

  /** No register outside `touched` differs from `snap`, and no register appears or disappears. */
  ghost predicate Untouched(m: MsrFile, snap: MsrFile, touched: set<u32>)
  {
    m.Keys == snap.Keys && forall a :: a in snap && a !in touched ==> m[a] == snap[a]
  }

  /** Every block of `cs` shows the effect of the init walk in `m`. */
  ghost predicate InitDone(m: MsrFile, smca: bool, cuPresent: bool, bank: nat, cs: seq<Probe>)
  {
    forall p :: p in cs ==> p.address in m && InitEffect(smca, cuPresent, bank, p.reg, m[p.address])
  }

  /** The addresses of a sequence of visited registers. */
  function AddressesOf(ps: seq<Probe>): set<u32>
  {
    set p | p in ps :: p.address
  }

  /** A register the walk has not visited still holds what it held. */
  lemma {:induction false} InitArmAllOutside(m: MsrFile, smca: bool, cuPresent: bool, bank: nat, ps: seq<Probe>, a: u32)
    requires a in m && a !in AddressesOf(ps)
    ensures InitArmAll(m, smca, cuPresent, bank, ps)[a] == m[a]
  {
    if ps != [] {
      var init := ps[..|ps| - 1];
      assert AddressesOf(init) <= AddressesOf(ps) by {
        forall q | q in init ensures q in ps { }
      }
      assert ps[|ps| - 1] in ps;
      InitArmAllOutside(m, smca, cuPresent, bank, init, a);
    }
  }

  /**
   * The init walk over registers read from `m`, none visited twice, arms
   * every usable block it visits (or leaves it as it was, when
   * `prepare_threshold_block` bails out) and changes no other register.
   */
  lemma {:induction false} InitArmAllEffect(m: MsrFile, smca: bool, cuPresent: bool, bank: nat, ps: seq<Probe>)
    requires Increasing(ps)
    requires forall i :: 0 <= i < |ps| ==> ps[i].address in m && ps[i].reg == m[ps[i].address]
    ensures Untouched(InitArmAll(m, smca, cuPresent, bank, ps), m, AddressesOf(Candidates(ps)))
    ensures InitDone(InitArmAll(m, smca, cuPresent, bank, ps), smca, cuPresent, bank, Candidates(ps))
  {
    if ps != [] {
      var init, p := ps[..|ps| - 1], ps[|ps| - 1];
      assert ps == init + [p];
      assert forall i :: 0 <= i < |init| ==> init[i] == ps[i];
      InitArmAllEffect(m, smca, cuPresent, bank, init);
      FreshAddress(ps, init, [p]);
      CandidateAddresses(init);
      CandidatesAppend(init, p);
      InitArmKeeps(InitArmAll(m, smca, cuPresent, bank, init), m, smca, cuPresent, bank, Candidates(init), p);
    }
  }

  /** The usable blocks' addresses are among the visited ones. */
  lemma CandidateAddresses(ps: seq<Probe>)
    ensures AddressesOf(Candidates(ps)) <= AddressesOf(ps)
  {
    CandidatesAreUsable(ps);
  }

  /** Handling one more register, not handled before, keeps both facts for the blocks handled so far. */
  lemma InitArmKeeps(r: MsrFile, m: MsrFile, smca: bool, cuPresent: bool, bank: nat, cs: seq<Probe>, p: Probe)
    requires Untouched(r, m, AddressesOf(cs)) && InitDone(r, smca, cuPresent, bank, cs)
    requires p.address in m && p.reg == m[p.address] && p.address !in AddressesOf(cs)
    ensures var cs' := cs + (if Usable(p.reg.hi) then [p] else []);
            && Untouched(InitArm(r, smca, cuPresent, bank, p), m, AddressesOf(cs'))
            && InitDone(InitArm(r, smca, cuPresent, bank, p), smca, cuPresent, bank, cs')
  {
    var r' := InitArm(r, smca, cuPresent, bank, p);
    if Usable(p.reg.hi) {
      DecodeEncodeMisc(ArmedMisc(DecodeMisc(p.reg.hi), LvtInterruptSupported(bank, p.reg.hi)));
      assert InitEffect(smca, cuPresent, bank, p.reg, r'[p.address]);
      assert AddressesOf(cs + [p]) == AddressesOf(cs) + {p.address};
      forall q | q in cs + [p]
        ensures q.address in r' && InitEffect(smca, cuPresent, bank, q.reg, r'[q.address])
      {
        if q != p {
          assert q in cs;
        }
      }
    } else {
      assert cs + [] == cs;
    }
  }

  /** The walk's usable blocks start with block 0: `prepare_threshold_block` then sets the bank in `bank_map`. */
  predicate StartsAtBlockZero(ps: seq<Probe>)
  {
    ps != [] && ps[0].block == 0
  }

  lemma {:induction false} CandidatesAppend(ps: seq<Probe>, p: Probe)
    ensures Candidates(ps + [p]) == Candidates(ps) + (if Usable(p.reg.hi) then [p] else [])
  {
    if ps != [] {
      assert (ps + [p])[1..] == ps[1..] + [p];
      CandidatesAppend(ps[1..], p);
    } else {
      assert Candidates([p][1..]) == [];
    }
  }

  /** Block `|done|` of the walk puts the bank in `bank_map` exactly when it is usable block 0. */
  lemma BankMapStep(done: seq<Probe>, p: Probe, bank: nat, ps: seq<Probe>, rest: seq<Probe>)
    requires ps == (done + [p]) + rest && forall i :: 0 <= i < |ps| ==> ps[i].block == i
    ensures (if StartsAtBlockZero(Candidates(done + [p])) then {bank} else {})
            == (if StartsAtBlockZero(Candidates(done)) then {bank} else {}) + (if Usable(p.reg.hi) && p.block == 0 then {bank} else {})
  {
    assert p == ps[|done|];
    assert forall i :: 0 <= i < |done| ==> done[i] == ps[i];
    CandidatesAppend(done, p);
    CandidatesAreUsable(done);
    if Candidates(done) != [] {
      assert Candidates(done)[0] in done;
    }
  }

  /**
   * The walk's next register, when it has one, extends the visited prefix
   * and was not visited before.
   */
  lemma {:induction false} WalkAdvance(ps: seq<Probe>, done: seq<Probe>, m: MsrFile, cfg: AddrCfg, bank: nat,
                                       block: nat, current: u32, low: bv32)
    requires cfg.numBanks <= MAX_NR_BANKS && ps == BankProbes(m, cfg, bank)
    requires ps == done + ProbesFrom(m, cfg, bank, block, current, low)
    requires block < NR_BLOCKS
    requires GetBlockAddress(cfg, current, low, bank, block) != 0 && GetBlockAddress(cfg, current, low, bank, block) in m
    ensures var a := GetBlockAddress(cfg, current, low, bank, block);
            && ps == (done + [Probe(block, a, m[a])]) + ProbesFrom(m, cfg, bank, block + 1, a, m[a].lo)
            && a !in AddressesOf(done)
  {
    var a := GetBlockAddress(cfg, current, low, bank, block);
    var rest := ProbesFrom(m, cfg, bank, block, current, low);
    var rest' := ProbesFrom(m, cfg, bank, block + 1, a, m[a].lo);
    ProbesIncrease(m, cfg, bank);
    ProbesFromStep(m, cfg, bank, block, current, low);
    assert rest == [Probe(block, a, m[a])] + rest';
    FreshAddress(ps, done, rest);
    assert done + ([Probe(block, a, m[a])] + rest') == (done + [Probe(block, a, m[a])]) + rest';
  }

  /** A completed walk visited exactly the bank's probes. */
  lemma WalkCovers(m: MsrFile, cfg: AddrCfg, bank: nat, ps: seq<Probe>)
    requires ps == BankProbes(m, cfg, bank)
    ensures InitBlocks(m, cfg, bank) == Candidates(ps)
  {
  }

  /** The walk ends when the address is zero, the read faults or the blocks run out. */
  lemma {:induction false} WalkEnd(ps: seq<Probe>, done: seq<Probe>, m: MsrFile, cfg: AddrCfg, bank: nat,
                                   block: nat, current: u32, low: bv32)
    requires ps == done + ProbesFrom(m, cfg, bank, block, current, low)
    requires block >= NR_BLOCKS || GetBlockAddress(cfg, current, low, bank, block) == 0
             || GetBlockAddress(cfg, current, low, bank, block) !in m
    ensures ps == done
  {
    ProbesFromStep(m, cfg, bank, block, current, low);
  }

  /** The next register a walk visits was not among those it visited before. */
  lemma FreshAddress(ps: seq<Probe>, done: seq<Probe>, rest: seq<Probe>)
    requires Increasing(ps) && ps == done + rest && rest != []
    ensures rest[0].address !in AddressesOf(done)
  {
    forall q | q in done
      ensures q.address != rest[0].address
    {
      var i :| 0 <= i < |done| && done[i] == q;
      assert ps[i] == q && ps[|done|] == rest[0];
    }
  }

  /**
   * What the init walk does to a bank, stated block by block: every block
   * `InitBlocks` lists is armed (or left alone where
   * `prepare_threshold_block` bails out) and no other register changes.
   */
  lemma InitBankEffect(m: MsrFile, cfg: AddrCfg, smca: bool, bank: nat)
    requires cfg.numBanks <= MAX_NR_BANKS
    ensures var m' := InitArmAll(m, smca, MSR_CU_DEF_ERR in m, bank, BankProbes(m, cfg, bank));
            && Untouched(m', m, AddressesOf(InitBlocks(m, cfg, bank)))
            && InitDone(m', smca, MSR_CU_DEF_ERR in m, bank, InitBlocks(m, cfg, bank))
  {
    ProbesIncrease(m, cfg, bank);
    InitArmAllEffect(m, smca, MSR_CU_DEF_ERR in m, bank, BankProbes(m, cfg, bank));
  }

  /** The first usable block is block 0 only when the walk's first register is usable. */
  lemma CandidatesStart(ps: seq<Probe>)
    requires forall i :: 0 <= i < |ps| ==> ps[i].block == i
    ensures StartsAtBlockZero(Candidates(ps)) <==> ps != [] && Usable(ps[0].reg.hi)
  {
    if ps != [] && !Usable(ps[0].reg.hi) {
      CandidatesAreUsable(ps[1..]);
      var rest := Candidates(ps[1..]);
      if rest != [] {
        assert rest[0] in ps[1..];
      }
    }
  }

  // ---------------------------------------------------------------------
  // Deferred error interrupt setup

  /**
   * The MSR_CU_DEF_ERR low word `deferred_error_interrupt_enable` writes:
   * a zero LVT offset field (a firmware bug) becomes 2, and on legacy parts
   * the interrupt type becomes APIC.
   */
  function DefErrLo(smca: bool, lo: bv32): bv32
  {
    var l := if lo & MASK_DEF_LVTOFF == 0 then (lo & 0xFFFF_FF0F) | ((DEF_LVT_OFF as bv32) << 4) else lo;
    if smca then l else (l & 0xFFFF_FFF9) | DEF_INT_TYPE_APIC
  }

  /** The deferred-error LVT offset the code asks the APIC for. */
  function DefLvtOff(lo: bv32): bv4
  {
    if lo & MASK_DEF_LVTOFF == 0 then DEF_LVT_OFF else ((lo & MASK_DEF_LVTOFF) >> 4) as bv4
  }

  /** The written word names the (nonzero) offset requested from the APIC. */
  lemma DefErrLoOffset(smca: bool, lo: bv32)
    ensures ((DefErrLo(smca, lo) & MASK_DEF_LVTOFF) >> 4) as bv4 == DefLvtOff(lo) != 0
  {
  }

  /** On legacy parts the deferred-error interrupt type becomes APIC. */
  lemma DefErrLoIntType(lo: bv32)
    ensures DefErrLo(false, lo) & MASK_DEF_INT_TYPE == DEF_INT_TYPE_APIC
  {
  }

  /** No bit outside the two fields changes. */
  lemma DefErrLoKeepsOtherBits(smca: bool, lo: bv32)
    ensures smca ==> DefErrLo(smca, lo) & 0xFFFF_FF0F == lo & 0xFFFF_FF0F
    ensures !smca ==> DefErrLo(smca, lo) & 0xFFFF_FF09 == lo & 0xFFFF_FF09
  {
  }

  // ---------------------------------------------------------------------
  // The sysfs device

  /** What `threshold_create_bank` produces for one bank. */
  datatype BankResult = BankCreated(tb: ThresholdBank) | BankFailed(err: int)

  /** The bank array after the creation loop, or the first error and the banks created before it. */
  datatype CreateResult = AllCreated(bp: seq<Option<ThresholdBank>>) | CreateFailed(err: int, bp: seq<Option<ThresholdBank>>)

  /** `allocate_threshold_blocks` entered at `block` with its `address` already computed. */
  function ProbesAt(m: MsrFile, cfg: AddrCfg, bank: nat, block: nat, address: u32): seq<Probe>
  {
    if bank >= cfg.numBanks || block >= NR_BLOCKS || address !in m then []
    else [Probe(block, address, m[address])] + ProbesFrom(m, cfg, bank, block + 1, address, m[address].lo)
  }

  /** One step of a walk: it ends at a zero address or a faulting read, else visits the register and moves on. */
  lemma ProbesFromStep(m: MsrFile, cfg: AddrCfg, bank: nat, block: nat, current: u32, low: bv32)
    ensures var a := GetBlockAddress(cfg, current, low, bank, block);
            && (block >= NR_BLOCKS || a == 0 || a !in m ==> ProbesFrom(m, cfg, bank, block, current, low) == [])
            && (block < NR_BLOCKS && a != 0 && a in m ==>
                  ProbesFrom(m, cfg, bank, block, current, low) == [Probe(block, a, m[a])] + ProbesFrom(m, cfg, bank, block + 1, a, m[a].lo))
  {
  }

  /** The allocator's entry at MCA_MISC of the bank visits the bank's registers from block 0. */
  lemma ProbesAtBlockZero(m: MsrFile, cfg: AddrCfg, bank: nat)
    requires bank < cfg.numBanks <= MAX_NR_BANKS
    ensures ProbesAt(m, cfg, bank, 0, McaMsrReg(cfg.smca, bank, Misc)) == BankProbes(m, cfg, bank)
  {
    if cfg.smca {
      U32Small(SMCA_BASE + 0x10 * bank + 3);
    } else {
      U32Small(0x400 + 4 * bank + 3);
    }
  }

  /** The allocator's step to the next block agrees with the walk. */
  lemma ProbesAtNext(m: MsrFile, cfg: AddrCfg, bank: nat, block: nat, address: u32, low: bv32)
    ensures GetBlockAddress(cfg, address, low, bank, block + 1) == 0 ==> ProbesFrom(m, cfg, bank, block + 1, address, low) == []
    ensures GetBlockAddress(cfg, address, low, bank, block + 1) != 0 ==>
              ProbesFrom(m, cfg, bank, block + 1, address, low)
              == ProbesAt(m, cfg, bank, block + 1, GetBlockAddress(cfg, address, low, bank, block + 1))
  {
  }

  /** `bankMap` holds `map0` and, besides it, only banks below `n`. */
  predicate GrowsBelow(bankMap: set<nat>, map0: set<nat>, n: nat)
  {
    map0 <= bankMap && forall b :: b in bankMap ==> b in map0 || b < n
  }

  /** The events of removing the first `n` banks of `bp`: one per created bank, in bank order. */
  function RemovalEvents(bp: seq<Option<ThresholdBank>>, n: nat): seq<Event>
    requires n <= |bp|
  {
    if n == 0 then [] else RemovalEvents(bp, n - 1) + (if bp[n - 1].Some? then [BankRemoved(n - 1)] else [])
  }

  /** Removal frees exactly the created banks and nothing else. */
  lemma {:induction false} RemovalEventsExact(bp: seq<Option<ThresholdBank>>, n: nat)
    requires n <= |bp|
    ensures forall e :: e in RemovalEvents(bp, n) ==> e.BankRemoved? && e.bank < n && bp[e.bank].Some?
    ensures forall b :: 0 <= b < n && bp[b].Some? ==> BankRemoved(b) in RemovalEvents(bp, n)
  {
    if n > 0 {
      RemovalEventsExact(bp, n - 1);
    }
  }

  // ---------------------------------------------------------------------
  // The sysfs attributes

  /**
   * `show_error_count`: `-ENODEV` (`None`) exactly when the register cannot
   * be read on the block's CPU; the value is `ShowErrorCount` of the
   * counter, which `ShowErrorCountIsErrorsCounted` relates to the errors
   * counted.
   */
  function ErrorCountShown(m: MsrFile, online: bool, b: ThresholdBlock): (r: Option<bv32>)
    ensures r.Some? <==> online && b.address in m
  {
    if !online || b.address !in m then None
    else Some(ShowErrorCount(DecodeMisc(m[b.address].hi).count, b.thresholdLimit))
  }

  /**
   * A `threshold_limit` store moves the counter by the limit change, which
   * keeps the errors counted (`LimitChangeKeepsErrorsCounted`); a counter
   * that had overflowed restarts instead, and the attribute then shows zero.
   */
  lemma {:induction false} LimitStoreKeepsErrorCount(m: MsrFile, b: ThresholdBlock, limit: Limit)
    requires b.address in m
    ensures var tr := ThreshRestart(b.(thresholdLimit := limit), false, None, b.thresholdLimit as bv12);
            var m' := RestartBank(m, true, tr);
            var f := DecodeMisc(m[b.address].hi);
            && ErrorCountShown(m', true, tr.b).Some?
            && (f.overflow ==> ErrorCountShown(m', true, tr.b) == Some(0))
            && (!f.overflow ==> DecodeMisc(m'[b.address].hi).count == ShiftCount(f.count, b.thresholdLimit, limit))
  {
    var tr := ThreshRestart(b.(thresholdLimit := limit), false, None, b.thresholdLimit as bv12);
    var f := DecodeMisc(m[b.address].hi);
    RestartBankEffect(m, true, tr);
    if f.overflow {
      RestartResetsCounter(f, tr);
      PresetCountsNothing(limit);
    } else {
      RestartAdjustsCounter(f, tr);
    }
  }

  /**
   * An `interrupt_enable` store reprograms the block's interrupt type (APIC
   * exactly when enabled) without touching a counter that has not
   * overflowed.
   */
  lemma {:induction false} InterruptEnableTakesEffect(m: MsrFile, b: ThresholdBlock, enable: bool)
    requires b.address in m && b.interruptCapable
    ensures var tr := ThreshRestart(b.(interruptEnable := enable), false, None, 0);
            var f' := DecodeMisc(RestartBank(m, true, tr)[b.address].hi);
            && f'.intType == (if enable then INT_TYPE_APIC else 0)
            && (!DecodeMisc(m[b.address].hi).overflow ==> f'.count == DecodeMisc(m[b.address].hi).count)
  {
    var tr := ThreshRestart(b.(interruptEnable := enable), false, None, 0);
    var f := DecodeMisc(m[b.address].hi);
    RestartBankEffect(m, true, tr);
    RestartInterruptType(f, tr);
    if !f.overflow {
      RestartKeepsCounter(f, tr);
    }
  }

  /** A block of the per-CPU bank array. */
  predicate HasBlock(tbs: seq<Option<ThresholdBank>>, bank: nat, i: nat)
  {
    bank < |tbs| && tbs[bank].Some? && i < |tbs[bank].value.blocks|
  }

  /** The bank array with block `i` of `bank` replaced. */
  function UpdateBlock(tbs: seq<Option<ThresholdBank>>, bank: nat, i: nat, b: ThresholdBlock): (r: seq<Option<ThresholdBank>>)
    requires HasBlock(tbs, bank, i)
    ensures |r| == |tbs| && HasBlock(r, bank, i) && r[bank].value.blocks[i].b == b
  {
    var tb := tbs[bank].value;
    tbs[bank := Some(tb.(blocks := tb.blocks[i := tb.blocks[i].(b := b)]))]
  }

  // ---------------------------------------------------------------------

  /**
   * The registers whose CntP `disable_err_thresholding` clears for a bank:
   * MC4_MISC0/1 on family 0x15, the instruction-fetch bank's MISC0 on
   * family 0x17 models 0x10..0x2F.
   */
  function ErratumMsrsFor(family: nat, model: nat, banks: map<nat, SmcaBank>, bank: nat): seq<u32>
  {
    if family == 0x15 && bank == 4 then [0x413, 0xC000_0408]
    else if family == 0x17 && 0x10 <= model <= 0x2F && BankTypeOf(banks, bank) == Some(IF) then [SmcaMisc0(bank)]
    else []
  }

  /** What `mce_amd_feature_init` changes per bank, with the LVT offset it carries and `thresholding_irq_en`. */
  datatype InitState = InitState(msrs: MsrFile, lsbInStatus: set<nat>, miscBanks: set<nat>, cls: Classified, bankMap: set<nat>,
                                 lvt: Lvt)

  /** `smca_configure` on SMCA parts: MCA_CONFIG, `lsb_in_status`, `smca_misc_banks_map` and the IPID classification. */
  function ConfigureState(smca: bool, s: InitState, bank: nat): (r: InitState)
    ensures r.bankMap == s.bankMap && r.lvt == s.lvt
  {
    if !smca then s
    else
      var m := ConfigureMcax(s.msrs, bank);
      s.(msrs := m, lsbInStatus := LsbAfterConfig(s.lsbInStatus, s.msrs, bank),
         miscBanks := s.miscBanks + (if HasMiscBlocks(m, bank) then {bank} else {}),
         cls := Classify(s.cls, ReadSafe(m, SmcaIpid(bank)), bank))
  }

  /** `disable_err_thresholding`, on the bank type the classification left. */
  function ErratumState(family: nat, model: nat, s: InitState, bank: nat): (r: InitState)
    ensures r.bankMap == s.bankMap && r.lvt == s.lvt
  {
    var e := ErratumMsrsFor(family, model, s.cls.banks, bank);
    s.(msrs := ClearCntpAll(s.msrs, e, |e|))
  }

  /**
   * The block walk: every visited block handled, the bank in `bank_map`
   * exactly when its first usable block is block 0, and the LVT offset and
   * IRQ flag carried through the visited blocks.
   */
  function WalkState(smca: bool, numBanks: BankCount, accepts: set<(bv4, Vector)>, s: InitState, bank: nat): (r: InitState)
    ensures s.bankMap <= r.bankMap <= s.bankMap + {bank}
    ensures s.lvt.offset.Some? ==> r.lvt.offset == s.lvt.offset && (s.lvt.irqEn ==> r.lvt.irqEn)
    ensures s.lvt.offset.None? ==> r.lvt.irqEn == (s.lvt.irqEn || r.lvt.offset.Some?)
  {
    var cfg := AddrCfg(smca, numBanks, s.miscBanks);
    var ps := BankProbes(s.msrs, cfg, bank);
    s.(msrs := InitArmAll(s.msrs, smca, MSR_CU_DEF_ERR in s.msrs, bank, ps),
       bankMap := s.bankMap + (if StartsAtBlockZero(InitBlocks(s.msrs, cfg, bank)) then {bank} else {}),
       lvt := WalkLvt(s.msrs, smca, accepts, bank, ps, s.lvt))
  }

  /**
   * One iteration of the bank loop of `mce_amd_feature_init`: on SMCA parts
   * `smca_configure`, then `disable_err_thresholding` on the bank type just
   * found, then the block walk on the registers that leaves.
   */
  function FeatureBank(family: nat, model: nat, smca: bool, numBanks: BankCount, accepts: set<(bv4, Vector)>,
                       s: InitState, bank: nat): (r: InitState)
    ensures s.bankMap <= r.bankMap <= s.bankMap + {bank}
    ensures s.lvt.offset.Some? ==> r.lvt.offset == s.lvt.offset && (s.lvt.irqEn ==> r.lvt.irqEn)
    ensures s.lvt.offset.None? ==> r.lvt.irqEn == (s.lvt.irqEn || r.lvt.offset.Some?)
  {
    WalkState(smca, numBanks, accepts, ErratumState(family, model, ConfigureState(smca, s, bank), bank), bank)
  }

  /**
   * The bank loop of `mce_amd_feature_init` after its first `n` banks:
   * `bank_map` only gains banks below `n`, and from no reservation the IRQ
   * flag ends set exactly when it was set or an offset was reserved.
   */
  function FeatureBanks(family: nat, model: nat, smca: bool, numBanks: BankCount, accepts: set<(bv4, Vector)>,
                        s: InitState, n: nat): (r: InitState)
    ensures s.bankMap <= r.bankMap <= s.bankMap + BanksBelow(n)
    ensures s.lvt.offset.Some? ==> r.lvt.offset == s.lvt.offset && (s.lvt.irqEn ==> r.lvt.irqEn)
    ensures s.lvt.offset.None? ==> r.lvt.irqEn == (s.lvt.irqEn || r.lvt.offset.Some?)
  {
    if n == 0 then s
    else
      var prev := FeatureBanks(family, model, smca, numBanks, accepts, s, n - 1);
      var next := FeatureBank(family, model, smca, numBanks, accepts, prev, n - 1);
      GrowByOne(s.bankMap, prev.bankMap, next.bankMap, n);
      next
  }

  /** The banks below `n`. */
  function BanksBelow(n: nat): (r: set<nat>)
    ensures forall b: nat :: b in r <==> b < n
  {
    if n == 0 then {} else BanksBelow(n - 1) + {n - 1}
  }

  lemma GrowByOne(a: set<nat>, b: set<nat>, c: set<nat>, n: nat)
    requires n > 0 && a <= b <= a + BanksBelow(n - 1) && b <= c <= b + {n - 1}
    ensures a <= c <= a + BanksBelow(n)
  {
  }

  /** The MSR_CU_DEF_ERR write of `deferred_error_interrupt_enable`; nothing when the register faults. */
  function DeferredEnableMsrs(smca: bool, m: MsrFile): MsrFile
  {
    if MSR_CU_DEF_ERR in m then Write(m, MSR_CU_DEF_ERR, Reg(DefErrLo(smca, m[MSR_CU_DEF_ERR].lo), m[MSR_CU_DEF_ERR].hi))
    else m
  }

  /**
   * The machine-check state of one logical CPU, as the AMD code sees and
   * changes it, together with the three system-wide settings its
   * operations read and write.
   */
  class McaCpu {
    const cpu: nat
    const numBanks: BankCount
    /** `mce_flags.smca`, `mce_flags.succor` and `mce_flags.amd_threshold`. */
    const smca: bool
    const succor: bool
    const amdThreshold: bool
    const family: nat
    const model: nat
    /** The (offset, vector) pairs for which `setup_APIC_eilvt` succeeds on this CPU. */
    const eilvtAccepts: set<(bv4, Vector)>
    /** Whether the per-CPU `mce_device` exists. */
    const hasDevice: bool
    /** Allocation failures: the bank array, a bank, a bank's kobject, and blocks of a bank. */
    const bpAllocFails: bool
    const bankAllocFails: set<nat>
    const kobjFails: set<nat>
    const blockAllocFails: map<nat, set<nat>>

    var msrs: MsrFile
    /** The records handed to `mce_log`. */
    var log: seq<ErrRecord>
    var smcaBanks: map<nat, SmcaBank>
    var bankCounts: map<BankType, nat>
    var lsbInStatus: set<nat>
    /** `smca_misc_banks_map` and `bank_map`. */
    var miscBanks: set<nat>
    var bankMap: set<nat>
    /**
     * `thresholding_irq_en`, and whether the AMD handlers are installed as
     * the deferred-error and threshold vectors.  These three are
     * system-wide in the kernel; here they start as the CPUs set up
     * before this one left them, and only this CPU's operations change them.
     */
    var thresholdingIrqEn: bool
    var deferredHandlerInstalled: bool
    var thresholdHandlerInstalled: bool
    /** `threshold_banks`: `None` is the NULL pointer; otherwise one entry per bank. */
    var thresholdBanks: Option<seq<Option<ThresholdBank>>>
    var events: seq<Event>

    constructor(cpu: nat, numBanks: BankCount, smca: bool, succor: bool, amdThreshold: bool,
                family: nat, model: nat, eilvtAccepts: set<(bv4, Vector)>, hasDevice: bool,
                bpAllocFails: bool, bankAllocFails: set<nat>, kobjFails: set<nat>,
                blockAllocFails: map<nat, set<nat>>, msrs: MsrFile,
                irqEn: bool, deferredInstalled: bool, thresholdInstalled: bool)
      ensures this.cpu == cpu && this.numBanks == numBanks && this.smca == smca && this.succor == succor
      ensures this.amdThreshold == amdThreshold && this.family == family && this.model == model
      ensures this.eilvtAccepts == eilvtAccepts && this.hasDevice == hasDevice
      ensures this.bpAllocFails == bpAllocFails && this.bankAllocFails == bankAllocFails
      ensures this.kobjFails == kobjFails && this.blockAllocFails == blockAllocFails
      ensures this.msrs == msrs && log == [] && smcaBanks == map[] && bankCounts == map[]
      ensures lsbInStatus == {} && miscBanks == {} && bankMap == {}
      ensures thresholdingIrqEn == irqEn && deferredHandlerInstalled == deferredInstalled
      ensures thresholdHandlerInstalled == thresholdInstalled
      ensures thresholdBanks == None && events == []
    {
      this.cpu := cpu;
      this.numBanks := numBanks;
      this.smca := smca;
      this.succor := succor;
      this.amdThreshold := amdThreshold;
      this.family := family;
      this.model := model;
      this.eilvtAccepts := eilvtAccepts;
      this.hasDevice := hasDevice;
      this.bpAllocFails := bpAllocFails;
      this.bankAllocFails := bankAllocFails;
      this.kobjFails := kobjFails;
      this.blockAllocFails := blockAllocFails;
      this.msrs := msrs;
      log := [];
      smcaBanks := map[];
      bankCounts := map[];
      lsbInStatus := {};
      miscBanks := {};
      bankMap := {};
      thresholdingIrqEn := irqEn;
      deferredHandlerInstalled := deferredInstalled;
      thresholdHandlerInstalled := thresholdInstalled;
      thresholdBanks := None;
      events := [];
    }

    /** What `get_block_address` reads of this CPU. */
    function Cfg(): AddrCfg
      reads this`miscBanks
    {
      AddrCfg(smca, numBanks, miscBanks)
    }

    function SmcaGetBankType(bank: nat): Option<BankType>
      reads this`smcaBanks
    {
      BankTypeOf(smcaBanks, bank)
    }

    /** What `get_name` reads of this CPU for a bank. */
    function Naming(bank: nat): BankNaming
      reads this`smcaBanks, this`bankCounts
    {
      var t := SmcaGetBankType(bank);
      BankNaming(t, if t.Some? then CountOf(bankCounts, t.value) else 0,
                 if bank in smcaBanks then smcaBanks[bank].sysfsId else 0)
    }

    /** What the allocator reads of this CPU for a bank. */
    function Ctx(bank: nat): AllocCtx
      reads this`smcaBanks, this`bankCounts
    {
      AllocCtx(cpu, smca, Naming(bank), if bank in blockAllocFails then blockAllocFails[bank] else {})
    }

    // -------------------------------------------------------------------
    // Bank configuration

    /** `smca_set_misc_banks_map`. */
    method SmcaSetMiscBanksMap(bank: nat)
      requires bank < numBanks
      modifies this`miscBanks
      ensures miscBanks == old(miscBanks) + (if HasMiscBlocks(msrs, bank) then {bank} else {})
    {
      var config := ReadSafe(msrs, SmcaConfig(bank));
      if config.None? {
        return;
      }
      if config.value.lo & MCI_CONFIG_MCAX == 0 {
        return;
      }
      var misc := ReadSafe(msrs, SmcaMisc0(bank));
      if misc.None? {
        return;
      }
      if misc.value.lo & MASK_BLKPTR_LO != 0 {
        miscBanks := miscBanks + {bank};
      }
    }

    /**
     * `smca_configure`: acknowledge MCAX and program the deferred interrupt
     * type in MCA_CONFIG, record `lsb_in_status`, map the bank's extra MISC
     * registers, then classify the bank by its IPID.
     */
    method SmcaConfigure(bank: nat)
      requires bank < numBanks
      modifies this`msrs, this`lsbInStatus, this`miscBanks, this`smcaBanks, this`bankCounts
      ensures msrs == ConfigureMcax(old(msrs), bank)
      ensures lsbInStatus == LsbAfterConfig(old(lsbInStatus), old(msrs), bank)
      ensures miscBanks == old(miscBanks) + (if HasMiscBlocks(msrs, bank) then {bank} else {})
      ensures Classified(smcaBanks, bankCounts)
              == Classify(Classified(old(smcaBanks), old(bankCounts)), ReadSafe(msrs, SmcaIpid(bank)), bank)
    {
      WriteMcaConfig(bank);
      SmcaSetMiscBanksMap(bank);
      ClassifyBank(bank);
    }

    /** The MCA_CONFIG step of `smca_configure`. */
    method WriteMcaConfig(bank: nat)
      modifies this`msrs, this`lsbInStatus
      ensures msrs == ConfigureMcax(old(msrs), bank)
      ensures lsbInStatus == LsbAfterConfig(old(lsbInStatus), old(msrs), bank)
    {
      var config := ReadSafe(msrs, SmcaConfig(bank));
      if config.None? {
        return;
      }
      var low := config.value.lo;
      var high := ConfigHi(low, config.value.hi);
      if low & 0x100 != 0 {
        lsbInStatus := lsbInStatus + {bank};
      } else {
        lsbInStatus := lsbInStatus - {bank};
      }
      msrs := Write(msrs, SmcaConfig(bank), Reg(low, high));
    }

    /**
     * The IPID step of `smca_configure`: the catalog is searched in order
     * for the bank's `HWID_MCATYPE` key, and the first match classifies it.
     */
    method ClassifyBank(bank: nat)
      modifies this`smcaBanks, this`bankCounts
      ensures Classified(smcaBanks, bankCounts)
              == Classify(Classified(old(smcaBanks), old(bankCounts)), ReadSafe(msrs, SmcaIpid(bank)), bank)
    {
      var ipid := ReadSafe(msrs, SmcaIpid(bank));
      if ipid.None? {
        return;
      }
      var found := FindHwid(Catalog, IpidKey(ipid.value.hi));
      if found.None? {
        return;
      }
      var i := found.value;
      var t := Catalog[i].bankType;
      var count := CountOf(bankCounts, t);
      smcaBanks := smcaBanks[bank := SmcaBank(Some(i), ipid.value.lo, count)];
      bankCounts := bankCounts[t := (count + 1) % 256];
    }

    /** The registers whose CntP `disable_err_thresholding` clears for a bank. */
    function ErratumMsrs(bank: nat): seq<u32>
      reads this`smcaBanks
    {
      ErratumMsrsFor(family, model, smcaBanks, bank)
    }

    /**
     * `disable_err_thresholding`: with McStatusWrEn set in HWCR for the
     * duration, CntP is cleared in MC4_MISC0/1 on family 0x15 and in the
     * instruction-fetch bank's MISC0 on family 0x17 models 0x10..0x2F; HWCR
     * ends as it was.
     */
    method DisableErrThresholding(bank: nat)
      requires bank < numBanks
      modifies this`msrs
      ensures msrs == ClearCntpAll(old(msrs), ErratumMsrs(bank), |ErratumMsrs(bank)|)
    {
      var addrs: seq<u32>;
      if family == 0x15 && bank == 4 {
        addrs := [0x413, 0xC000_0408];
      } else if family == 0x17 && 0x10 <= model <= 0x2F {
        if SmcaGetBankType(bank) != Some(IF) {
          return;
        }
        addrs := [SmcaMisc0(bank)];
      } else {
        return;
      }
      U32Small(SMCA_BASE + 0x10 * bank + 3);
      assert MSR_K7_HWCR !in addrs;
      ghost var m0 := msrs;
      var hwcr := Read(msrs, MSR_K7_HWCR);
      var needToggle := hwcr.lo & 0x4_0000 == 0;
      if needToggle {
        msrs := Write(msrs, MSR_K7_HWCR, Reg(hwcr.lo | 0x4_0000, hwcr.hi));
      }
      ghost var toggled := msrs;
      for i := 0 to |addrs|
        invariant msrs == ClearCntpAll(toggled, addrs, i)
      {
        msrs := ClearCntp(msrs, addrs[i]);
      }
      ClearCntpAllWrite(m0, addrs, |addrs|, MSR_K7_HWCR, Reg(hwcr.lo | 0x4_0000, hwcr.hi));
      if needToggle {
        ghost var cleared: MsrFile := ClearCntpAll(m0, addrs, |addrs|);
        ghost var h: u32 := MSR_K7_HWCR;
        msrs := Write(msrs, MSR_K7_HWCR, hwcr);
        if MSR_K7_HWCR in m0 {
          assert cleared[h := Reg(hwcr.lo | 0x4_0000, hwcr.hi)][h := hwcr] == cleared;
        }
      }
    }

    // -------------------------------------------------------------------
    // Restarting a block

    /**
     * `threshold_restart_bank`, run on this CPU: skipped when the banks are
     * gone and this is not an init; otherwise the counter is reset (init or
     * overflow) or shifted (limit change), the interrupt type reprogrammed
     * and counting enabled.
     */
    method ThresholdRestartBank(tr: ThreshRestart)
      modifies this`msrs
      ensures msrs == RestartBank(old(msrs), thresholdBanks.Some?, tr)
    {
      if thresholdBanks.None? && !tr.setLvtOff {
        return;
      }
      var r := Read(msrs, tr.b.address);
      // the counter step (reset or limit change), then IntType, then COUNT_EN
      var f := RestartCount(DecodeMisc(r.hi), tr);
      f := RestartInterrupt(f, tr);
      f := f.(countEn := true);
      msrs := Write(msrs, tr.b.address, Reg(r.lo, EncodeMisc(f)));
    }

    // -------------------------------------------------------------------
    // The init walk

    /** What `prepare_threshold_block` decides for a block, read in the current state. */
    function PrepareOutcome(bank: nat, block: nat, addr: u32, offset: Offset, hi: bv32): Prepared
      reads this`msrs
    {
      var capable := LvtInterruptSupported(bank, hi);
      var b := ThresholdBlock(block, bank, cpu, addr, capable, capable, THRESHOLD_MAX);
      if !capable then Prepared(offset, false, Some(b))
      else if smca && MSR_CU_DEF_ERR !in msrs then Prepared(offset, false, None)
      else
        var cand := if smca then ThrLvtOff(msrs[MSR_CU_DEF_ERR].lo) else DecodeMisc(hi).lvtOff;
        var off := Reserve(offset, cand, (cand, ThresholdVector) in eilvtAccepts);
        Prepared(off, off == Some(cand), Some(b))
    }

    /**
     * `prepare_threshold_block`: block 0 puts its bank in `bank_map`; an
     * interrupt-capable block reserves the thresholding LVT offset (from
     * the MISC register, or MSR_CU_DEF_ERR on SMCA parts) and enables the
     * thresholding IRQ once the reservation holds its offset; the block is
     * then restarted as an init.
     */
    method PrepareThresholdBlock(bank: nat, block: nat, addr: u32, offset: Offset, hi: bv32) returns (offset': Offset)
      modifies this`msrs, this`bankMap, this`thresholdingIrqEn
      ensures var p := old(PrepareOutcome(bank, block, addr, offset, hi));
              && offset' == p.offset
              && thresholdingIrqEn == (old(thresholdingIrqEn) || p.irq)
              && msrs == (if p.init.Some? then RestartBank(old(msrs), thresholdBanks.Some?, ThreshRestart(p.init.value, true, p.offset, 0))
                          else old(msrs))
      ensures bankMap == old(bankMap) + (if block == 0 then {bank} else {})
    {
      if block == 0 {
        bankMap := bankMap + {bank};
      }
      var capable := LvtInterruptSupported(bank, hi);
      var b := ThresholdBlock(block, bank, cpu, addr, false, capable, THRESHOLD_MAX);
      offset' := offset;
      if capable {
        b := b.(interruptEnable := true);
        var cand: bv4;
        if !smca {
          cand := DecodeMisc(hi).lvtOff;
        } else {
          var def := ReadSafe(msrs, MSR_CU_DEF_ERR);
          if def.None? {
            return;
          }
          cand := ThrLvtOff(def.value.lo);
        }
        offset' := Reserve(offset', cand, (cand, ThresholdVector) in eilvtAccepts);
        if offset' == Some(cand) {
          thresholdingIrqEn := true;
        }
      }
      ThresholdRestartBank(ThreshRestart(b, true, offset', 0));
    }

    /** For a usable block, `PrepareOutcome` moves the offset and the IRQ flag as `PrepareLvt` says. */
    lemma PrepareOutcomeLvt(bank: nat, p: Probe, offset: Offset, irqEn: bool)
      requires Usable(p.reg.hi)
      ensures var o := PrepareOutcome(bank, p.block, p.address, offset, p.reg.hi);
              Lvt(o.offset, irqEn || o.irq) == PrepareLvt(msrs, smca, eilvtAccepts, bank, p, Lvt(offset, irqEn))
    {
    }

    /**
     * One iteration of the block loop of `mce_amd_feature_init`, for a
     * register that reads: invalid, counter-less or locked blocks are
     * skipped, any other is prepared.
     */
    method InitBlock(bank: nat, p: Probe, offset: Offset) returns (offset': Offset)
      requires p.address in msrs && msrs[p.address] == p.reg
      modifies this`msrs, this`bankMap, this`thresholdingIrqEn
      ensures msrs == InitArm(old(msrs), smca, MSR_CU_DEF_ERR in old(msrs), bank, p)
      ensures bankMap == old(bankMap) + (if Usable(p.reg.hi) && p.block == 0 then {bank} else {})
      ensures Lvt(offset', thresholdingIrqEn) == PrepareLvt(old(msrs), smca, eilvtAccepts, bank, p, Lvt(offset, old(thresholdingIrqEn)))
    {
      offset' := offset;
      var high := p.reg.hi;
      // an invalid block, or one without a counter or locked, is skipped
      if Usable(high) {
        ghost var o := PrepareOutcome(bank, p.block, p.address, offset, high);
        PrepareOutcomeLvt(bank, p, offset, thresholdingIrqEn);
        offset' := PrepareThresholdBlock(bank, p.block, p.address, offset, high);
        if o.init.Some? {
          InitRestartArms(DecodeMisc(high), o.init.value, o.offset);
        }
      }
    }

    /**
     * The block loop of `mce_amd_feature_init` for one bank: the registers
     * the walk visits are handled in order (`InitArmAll`, whose effect
     * `InitBankEffect` states block by block), and a bank whose first
     * usable block is block 0 joins `bank_map`.  (The source carries the
     * previous bank's last address and low word into the next bank; block
     * 0 ignores both, so the walk starts from zeroes here.)
     */
    method InitBank(bank: nat, offset: Offset) returns (offset': Offset)
      requires bank < numBanks
      modifies this`msrs, this`bankMap, this`thresholdingIrqEn
      ensures msrs == old(InitArmAll(msrs, smca, MSR_CU_DEF_ERR in msrs, bank, BankProbes(msrs, Cfg(), bank)))
      ensures bankMap == old(bankMap) + (if StartsAtBlockZero(old(InitBlocks(msrs, Cfg(), bank))) then {bank} else {})
      ensures Lvt(offset', thresholdingIrqEn)
              == old(WalkLvt(msrs, smca, eilvtAccepts, bank, BankProbes(msrs, Cfg(), bank), Lvt(offset, thresholdingIrqEn)))
    {
      offset' := InitWalk(bank, Cfg(), offset);
    }

    /** The loop itself, with `get_block_address`'s view of this CPU fixed to `cfg`. */
    method InitWalk(bank: nat, cfg: AddrCfg, offset: Offset) returns (offset': Offset)
      requires cfg.numBanks <= MAX_NR_BANKS
      modifies this`msrs, this`bankMap, this`thresholdingIrqEn
      ensures msrs == InitArmAll(old(msrs), smca, MSR_CU_DEF_ERR in old(msrs), bank, BankProbes(old(msrs), cfg, bank))
      ensures bankMap == old(bankMap) + (if StartsAtBlockZero(Candidates(BankProbes(old(msrs), cfg, bank))) then {bank} else {})
      ensures Lvt(offset', thresholdingIrqEn)
              == WalkLvt(old(msrs), smca, eilvtAccepts, bank, BankProbes(old(msrs), cfg, bank), Lvt(offset, old(thresholdingIrqEn)))
    {
      ghost var snap := msrs;
      ghost var ps := BankProbes(msrs, cfg, bank);
      ghost var done: seq<Probe> := [];
      ghost var map0 := bankMap;
      ghost var l0 := Lvt(offset, thresholdingIrqEn);
      var address: u32 := 0;
      var low: bv32 := 0;
      var block := 0;
      offset' := offset;
      while block < NR_BLOCKS
        invariant block <= NR_BLOCKS && block == |done|
        invariant ps == done + ProbesFrom(snap, cfg, bank, block, address, low)
        invariant msrs == InitArmAll(snap, smca, MSR_CU_DEF_ERR in snap, bank, done)
        invariant bankMap == map0 + (if StartsAtBlockZero(Candidates(done)) then {bank} else {})
        invariant Lvt(offset', thresholdingIrqEn) == WalkLvt(snap, smca, eilvtAccepts, bank, done, l0)
        decreases NR_BLOCKS - block
      {
        var more;
        more, address, low, offset', done := WalkStep(bank, snap, cfg, ps, done, map0, l0, block, address, low, offset');
        if !more {
          break;
        }
        block := block + 1;
      }
      if block == NR_BLOCKS {
        WalkEnd(ps, done, snap, cfg, bank, block, address, low);
      }
    }

    /**
     * One iteration of the block loop: the next register of the walk is
     * read and, when there is one, handed to `InitBlock`.
     */
    method WalkStep(bank: nat, ghost snap: MsrFile, cfg: AddrCfg, ghost ps: seq<Probe>, ghost done: seq<Probe>,
                    ghost map0: set<nat>, ghost l0: Lvt, block: nat, address: u32, low: bv32, offset: Offset)
      returns (more: bool, address': u32, low': bv32, offset': Offset, ghost done': seq<Probe>)
      requires block < NR_BLOCKS && block == |done| && cfg.numBanks <= MAX_NR_BANKS && ps == BankProbes(snap, cfg, bank)
      requires ps == done + ProbesFrom(snap, cfg, bank, block, address, low)
      requires msrs == InitArmAll(snap, smca, MSR_CU_DEF_ERR in snap, bank, done)
      requires bankMap == map0 + (if StartsAtBlockZero(Candidates(done)) then {bank} else {})
      requires Lvt(offset, thresholdingIrqEn) == WalkLvt(snap, smca, eilvtAccepts, bank, done, l0)
      modifies this`msrs, this`bankMap, this`thresholdingIrqEn
      ensures !more ==> ps == done'
      ensures more ==> |done'| == block + 1 && ps == done' + ProbesFrom(snap, cfg, bank, block + 1, address', low')
      ensures msrs == InitArmAll(snap, smca, MSR_CU_DEF_ERR in snap, bank, done')
      ensures bankMap == map0 + (if StartsAtBlockZero(Candidates(done')) then {bank} else {})
      ensures Lvt(offset', thresholdingIrqEn) == WalkLvt(snap, smca, eilvtAccepts, bank, done', l0)
    {
      more, address', low', offset', done' := false, address, low, offset, done;
      var next := GetBlockAddress(cfg, address, low, bank, block);
      var r: Option<Reg> := None;
      if next != 0 {
        r := ReadSafe(msrs, next);
      }
      if r.None? {
        WalkEnd(ps, done, snap, cfg, bank, block, address, low);
      } else {
        WalkAdvance(ps, done, snap, cfg, bank, block, address, low);
        InitArmAllOutside(snap, smca, MSR_CU_DEF_ERR in snap, bank, done, next);
        var p := Probe(block, next, r.value);
        offset' := InitBlock(bank, p, offset);
        InitArmAllStep(snap, smca, MSR_CU_DEF_ERR in snap, bank, done, p);
        WalkLvtStep(snap, smca, eilvtAccepts, bank, done, p, l0);
        BankMapStep(done, p, bank, ps, ProbesFrom(snap, cfg, bank, block + 1, next, r.value.lo));
        more, address', low', done' := true, next, r.value.lo, done + [p];
      }
    }

    // -------------------------------------------------------------------
    // Feature init

    /** The state `mce_amd_feature_init` changes bank by bank, with `offset` the LVT offset it carries. */
    ghost function View(offset: Offset): InitState
      reads this`msrs, this`lsbInStatus, this`miscBanks, this`smcaBanks, this`bankCounts, this`bankMap, this`thresholdingIrqEn
    {
      InitState(msrs, lsbInStatus, miscBanks, Classified(smcaBanks, bankCounts), bankMap, Lvt(offset, thresholdingIrqEn))
    }

    /**
     * `mce_amd_feature_init`: each bank is configured (SMCA parts), has the
     * thresholding errata applied and its blocks initialised, the LVT
     * offset reservation carried from block to block and bank to bank
     * (none at the start); `thresholding_irq_en` ends set exactly when it
     * was set or a reservation succeeded.  With SUCCOR the deferred error
     * interrupt is enabled last, on the register file the banks left.
     */
    method FeatureInit()
      modifies this`msrs, this`lsbInStatus, this`miscBanks, this`smcaBanks, this`bankCounts
      modifies this`bankMap, this`thresholdingIrqEn, this`deferredHandlerInstalled
      ensures var s := FeatureBanks(family, model, smca, numBanks, eilvtAccepts, old(View(None)), numBanks);
              && lsbInStatus == s.lsbInStatus && miscBanks == s.miscBanks
              && Classified(smcaBanks, bankCounts) == s.cls && bankMap == s.bankMap
              && thresholdingIrqEn == (old(thresholdingIrqEn) || s.lvt.offset.Some?)
              && msrs == (if succor then DeferredEnableMsrs(smca, s.msrs) else s.msrs)
              && deferredHandlerInstalled == (old(deferredHandlerInstalled) || (succor && DeferredAccepted(s.msrs)))
      ensures GrowsBelow(bankMap, old(bankMap), numBanks)
    {
      var offset := FeatureInitBanks();
      ghost var m := msrs;
      if succor {
        DeferredErrorInterruptEnable();
        assert msrs == DeferredEnableMsrs(smca, m);
      }
    }

    /** Whether `deferred_error_interrupt_enable` installs the AMD handler on register file `m`. */
    predicate DeferredAccepted(m: MsrFile)
    {
      MSR_CU_DEF_ERR in m && (DefLvtOff(m[MSR_CU_DEF_ERR].lo), DeferredVector) in eilvtAccepts
    }

    /** The bank loop of `mce_amd_feature_init`, the LVT offset carried from bank to bank. */
    method FeatureInitBanks() returns (offset: Offset)
      modifies this`msrs, this`lsbInStatus, this`miscBanks, this`smcaBanks, this`bankCounts
      modifies this`bankMap, this`thresholdingIrqEn
      ensures View(offset) == FeatureBanks(family, model, smca, numBanks, eilvtAccepts, old(View(None)), numBanks)
    {
      offset := None;
      ghost var s0 := View(None);
      for bank := 0 to numBanks
        invariant View(offset) == FeatureBanks(family, model, smca, numBanks, eilvtAccepts, s0, bank)
      {
        offset := FeatureInitBank(bank, offset);
      }
    }

    /** One iteration of the bank loop of `mce_amd_feature_init`. */
    method FeatureInitBank(bank: nat, offset: Offset) returns (offset': Offset)
      requires bank < numBanks
      modifies this`msrs, this`lsbInStatus, this`miscBanks, this`smcaBanks, this`bankCounts
      modifies this`bankMap, this`thresholdingIrqEn
      ensures View(offset') == FeatureBank(family, model, smca, numBanks, eilvtAccepts, old(View(offset)), bank)
    {
      ghost var s0 := View(offset);
      if smca {
        SmcaConfigure(bank);
      }
      assert View(offset) == ConfigureState(smca, s0, bank);
      ghost var s1 := View(offset);
      DisableErrThresholding(bank);
      assert View(offset) == ErratumState(family, model, s1, bank);
      ghost var s2 := View(offset);
      offset' := InitBank(bank, offset);
      assert View(offset') == WalkState(smca, numBanks, eilvtAccepts, s2, bank);
    }

    /**
     * `deferred_error_interrupt_enable`: nothing happens when MSR_CU_DEF_ERR
     * cannot be read; otherwise the AMD handler becomes the deferred-error
     * vector when the APIC accepts the register's LVT offset (2 when the
     * firmware left it zero), and the register is written back as
     * `DefErrLo` describes.
     */
    method DeferredErrorInterruptEnable()
      modifies this`msrs, this`deferredHandlerInstalled
      ensures MSR_CU_DEF_ERR !in old(msrs) ==> msrs == old(msrs) && deferredHandlerInstalled == old(deferredHandlerInstalled)
      ensures MSR_CU_DEF_ERR in old(msrs) ==>
                var r := old(msrs)[MSR_CU_DEF_ERR];
                && msrs == Write(old(msrs), MSR_CU_DEF_ERR, Reg(DefErrLo(smca, r.lo), r.hi))
                && deferredHandlerInstalled == (old(deferredHandlerInstalled) || (DefLvtOff(r.lo), DeferredVector) in eilvtAccepts)
    {
      var def := ReadSafe(msrs, MSR_CU_DEF_ERR);
      if def.Some? {
        // the offset the firmware programmed, 2 if it left the field zero
        var defNew := DefLvtOff(def.value.lo);
        var defOffset := Reserve(None, defNew, (defNew, DeferredVector) in eilvtAccepts);
        if defOffset == Some(defNew) {
          deferredHandlerInstalled := true;
        }
        var low := DefErrLo(smca, def.value.lo);
        msrs := Write(msrs, MSR_CU_DEF_ERR, Reg(low, def.value.hi));
      }
    }

    // -------------------------------------------------------------------
    // The interrupt handlers

    /** `_log_error_bank` on this CPU; the answer says whether a deferred error was logged. */
    method LogErrorBank(bank: nat, msrStat: u32, msrAddr: u32, misc: bv64) returns (deferred: bool)
      modifies this`msrs, this`log
      ensures AmdLog.LogErrorBank(smca, old(Machine(msrs, log)), bank, msrStat, msrAddr, misc) == Logged(deferred, Machine(msrs, log))
    {
      deferred := false;
      var status := Read64(msrs, msrStat);
      if HasBit(status, MCI_STATUS_VAL) {
        var addr: bv64 := 0;
        if HasBit(status, MCI_STATUS_ADDRV) {
          addr := Read64(msrs, msrAddr);
        }
        log := log + [ErrorRecord(smca, msrs, bank, status, addr, misc)];
        msrs := Write(msrs, msrStat, Reg(0, 0));
        deferred := HasBit(status, MCI_STATUS_DEFERRED);
      }
    }

    /** `_log_error_deferred`, passed the full 64-bit misc value (see `AmdLog.LogErrorDeferredAsWritten`). */
    method LogErrorDeferred(bank: nat, misc: bv64) returns (deferred: bool)
      modifies this`msrs, this`log
      ensures AmdLog.LogErrorDeferred(smca, old(Machine(msrs, log)), bank, misc) == Logged(deferred, Machine(msrs, log))
    {
      deferred := LogErrorBank(bank, McaMsrReg(smca, bank, Status), McaMsrReg(smca, bank, Addr), misc);
      if deferred && smca {
        msrs := Write(msrs, SmcaDestat(bank), Reg(0, 0));
      }
    }

    /** `log_error_deferred`. */
    method LogDeferredBank(bank: nat)
      modifies this`msrs, this`log
      ensures Machine(msrs, log) == AmdLog.LogDeferredBank(smca, old(Machine(msrs, log)), bank)
    {
      var deferred := LogErrorDeferred(bank, 0);
      if !deferred {
        deferred := LogErrorBank(bank, SmcaDestat(bank), SmcaDeaddr(bank), 0);
      }
    }

    /** `amd_deferred_error_interrupt`: every bank, in order. */
    method DeferredErrorInterrupt()
      modifies this`msrs, this`log
      ensures Machine(msrs, log) == DeferredScan(smca, old(Machine(msrs, log)), numBanks)
    {
      ghost var mc0 := Machine(msrs, log);
      for bank := 0 to numBanks
        invariant Machine(msrs, log) == DeferredScan(smca, mc0, bank)
      {
        LogDeferredBank(bank);
      }
    }

    /** `log_and_reset_block`, on a CPU whose banks exist. */
    method LogAndResetBlock(b: ThresholdBlock)
      requires thresholdBanks.Some?
      modifies this`msrs, this`log
      ensures Machine(msrs, log) == AmdLog.LogAndResetBlock(smca, old(Machine(msrs, log)), b)
    {
      var r := ReadSafe(msrs, b.address);
      if r.Some? && DecodeMisc(r.value.hi).overflow {
        var _ := LogErrorDeferred(b.bank, Value64(r.value));
        ThresholdRestartBank(ThreshRestart(b, false, None, 0));
      }
    }

    /** The list walk of `amd_threshold_interrupt` for one bank, the head first. */
    method ResetBankBlocks(blocks: seq<SysfsBlock>)
      requires thresholdBanks.Some?
      modifies this`msrs, this`log
      ensures Machine(msrs, log) == ResetBlocks(smca, old(Machine(msrs, log)), blocks, |blocks|)
    {
      ghost var mc0 := Machine(msrs, log);
      for i := 0 to |blocks|
        invariant Machine(msrs, log) == ResetBlocks(smca, mc0, blocks, i)
      {
        LogAndResetBlock(blocks[i].b);
      }
    }

    /**
     * The banks array, once published, has an entry for every bank and a
     * `threshold_bank` for every bank of `bank_map`, which the threshold
     * interrupt dereferences.
     */
    predicate BanksPublished()
      reads this`thresholdBanks, this`bankMap
    {
      thresholdBanks.Some? ==> |thresholdBanks.value| == numBanks && BanksCover(thresholdBanks.value, bankMap, numBanks)
    }

    /**
     * `amd_threshold_interrupt`: nothing while the banks are not published;
     * otherwise every block of every bank in `bank_map` is checked.
     */
    method ThresholdInterrupt()
      requires BanksPublished()
      modifies this`msrs, this`log
      ensures thresholdBanks.None? ==> msrs == old(msrs) && log == old(log)
      ensures thresholdBanks.Some? ==> Machine(msrs, log) == ScanBanks(smca, old(Machine(msrs, log)), thresholdBanks.value, bankMap, numBanks)
    {
      if thresholdBanks.Some? {
        var bp := thresholdBanks.value;
        ghost var mc0 := Machine(msrs, log);
        for bank := 0 to numBanks
          invariant Machine(msrs, log) == ScanBanks(smca, mc0, bp, bankMap, bank)
        {
          if bank in bankMap {
            ResetBankBlocks(bp[bank].value.blocks);
          }
        }
      }
    }

    // -------------------------------------------------------------------
    // The sysfs device

    /** What `threshold_create_bank` yields for `bank` in the current state. */
    function BankOutcome(bank: nat): BankResult
      reads this`msrs, this`miscBanks, this`smcaBanks, this`bankCounts
    {
      if !hasDevice then BankFailed(-ENODEV)
      else if bank in bankAllocFails then BankFailed(-ENOMEM)
      else if bank in kobjFails then BankFailed(-EINVAL)
      else match AllocateBank(Ctx(bank), msrs, Cfg(), bank)
        case Allocated(blocks) => BankCreated(ThresholdBank(GetName(smca, Naming(bank), bank, None), blocks))
        case AllocFailed(err) => BankFailed(err)
    }

    /**
     * The creation loop of `mce_threshold_create_device` after its first `n`
     * banks: a bank outside `bank_map` is skipped, and the first failure
     * stops the loop.
     */
    function CreatedBanks(n: nat): (r: CreateResult)
      requires n <= numBanks
      reads this`msrs, this`miscBanks, this`smcaBanks, this`bankCounts, this`bankMap
      ensures |r.bp| == numBanks
    {
      if n == 0 then AllCreated(seq(numBanks, _ => None))
      else match CreatedBanks(n - 1)
        case CreateFailed(err, bp) => CreateFailed(err, bp)
        case AllCreated(bp) =>
          if n - 1 !in bankMap then AllCreated(bp)
          else match BankOutcome(n - 1)
            case BankCreated(tb) => AllCreated(bp[n - 1 := Some(tb)])
            case BankFailed(err) => CreateFailed(err, bp)
    }

    /**
     * After the creation loop a bank has its `threshold_bank` exactly when
     * it is in `bank_map` and the loop reached it, so a published array
     * covers `bank_map`.
     */
    lemma {:induction false} CreatedBanksExact(n: nat)
      requires n <= numBanks
      ensures CreatedBanks(n).AllCreated? ==> forall b :: 0 <= b < numBanks ==> (CreatedBanks(n).bp[b].Some? <==> b < n && b in bankMap)
      ensures CreatedBanks(n).CreateFailed? ==> forall b :: 0 <= b < numBanks && CreatedBanks(n).bp[b].Some? ==> b < n && b in bankMap
    {
      if n > 0 {
        CreatedBanksExact(n - 1);
      }
    }

    /** The first failure is final: the loop stops there. */
    lemma {:induction false} CreatedBanksFailed(n: nat, m: nat)
      requires n <= m <= numBanks && CreatedBanks(n).CreateFailed?
      ensures CreatedBanks(m) == CreatedBanks(n)
      decreases m
    {
      if m > n {
        CreatedBanksFailed(n, m - 1);
      }
    }

    /**
     * `allocate_threshold_blocks` entered at `block` with its `address`
     * computed: the recursion follows the chain of block addresses and adds
     * each usable block to `list`.
     */
    method AllocateThresholdBlocks(bank: nat, block: nat, address: u32, list: seq<SysfsBlock>) returns (r: AllocResult)
      ensures r == AllocWalk(Ctx(bank), bank, ProbesAt(msrs, Cfg(), bank, block, address), list)
      decreases NR_BLOCKS - block
    {
      ghost var ps := ProbesAt(msrs, Cfg(), bank, block, address);
      var ctx := Ctx(bank);
      var reg: Option<Reg> := None;
      if bank < numBanks && block < NR_BLOCKS {
        reg := ReadSafe(msrs, address);
      }
      if reg.None? {
        r := Allocated(list);
      } else {
        var high := reg.value.hi;
        var p := Probe(block, address, reg.value);
        ProbesAtNext(msrs, Cfg(), bank, block, address, reg.value.lo);
        assert ps == [p] + ProbesFrom(msrs, Cfg(), bank, block + 1, address, reg.value.lo);
        if !DecodeMisc(high).valid && block == 0 {
          r := Allocated(list);
        } else if Usable(high) && block in ctx.failing {
          r := AllocFailed(-ENOMEM);
        } else {
          var list' := if Usable(high) then InsertAfterHead(list, Create(ctx, bank, p)) else list;
          var next := GetBlockAddress(Cfg(), address, reg.value.lo, bank, block + 1);
          if next == 0 {
            r := Allocated(list');
          } else {
            r := AllocateThresholdBlocks(bank, block + 1, next, list');
          }
        }
      }
    }

    /**
     * `threshold_create_bank`: `-ENODEV` without the per-CPU device,
     * `-ENOMEM` or `-EINVAL` when the bank or its kobject cannot be
     * allocated, else the bank's blocks from MCA_MISC on, or the
     * allocator's error.
     */
    method ThresholdCreateBank(bank: nat) returns (r: BankResult)
      requires bank < numBanks
      ensures r == BankOutcome(bank)
    {
      var name := GetName(smca, Naming(bank), bank, None);
      if !hasDevice {
        return BankFailed(-ENODEV);
      }
      if bank in bankAllocFails {
        return BankFailed(-ENOMEM);
      }
      if bank in kobjFails {
        return BankFailed(-EINVAL);
      }
      ProbesAtBlockZero(msrs, Cfg(), bank);
      var a := AllocateThresholdBlocks(bank, 0, McaMsrReg(smca, bank, Misc), []);
      if a.AllocFailed? {
        return BankFailed(a.err);
      }
      r := BankCreated(ThresholdBank(name, a.blocks));
    }

    /** `__threshold_remove_device`: every created bank is removed, in order, then the array is freed. */
    method RemoveBanks(bp: seq<Option<ThresholdBank>>)
      requires numBanks <= |bp|
      modifies this`events
      ensures events == old(events) + RemovalEvents(bp, numBanks) + [BanksFreed]
    {
      for bank := 0 to numBanks
        invariant events == old(events) + RemovalEvents(bp, bank)
      {
        if bp[bank].Some? {
          events := events + [BankRemoved(bank)];
        }
      }
      events := events + [BanksFreed];
    }

    /**
     * `mce_threshold_remove_device`: the banks are unpublished before they
     * are removed, so the interrupt cannot reach them.
     */
    method RemoveDevice() returns (r: int)
      requires BanksPublished()
      modifies this`thresholdBanks, this`events
      ensures r == 0 && thresholdBanks.None?
      ensures old(thresholdBanks).None? ==> events == old(events)
      ensures old(thresholdBanks).Some? ==>
                events == old(events) + [BanksUnpublished] + RemovalEvents(old(thresholdBanks).value, numBanks) + [BanksFreed]
    {
      r := 0;
      if thresholdBanks.Some? {
        var bp := thresholdBanks.value;
        thresholdBanks := None;
        events := events + [BanksUnpublished];
        RemoveBanks(bp);
      }
    }

    /**
     * `mce_threshold_create_device`: nothing to do without thresholding or
     * with the banks already published, `-ENOMEM` when the array cannot be
     * allocated; otherwise the banks are created (`CreateBanks`).
     */
    method CreateDevice() returns (r: int)
      requires BanksPublished()
      modifies this`thresholdBanks, this`thresholdHandlerInstalled, this`events
      ensures BanksPublished()
      ensures !amdThreshold || old(thresholdBanks).Some? || bpAllocFails ==>
                && r == (if amdThreshold && old(thresholdBanks).None? then -ENOMEM else 0)
                && thresholdBanks == old(thresholdBanks) && events == old(events)
                && thresholdHandlerInstalled == old(thresholdHandlerInstalled)
      ensures amdThreshold && old(thresholdBanks).None? && !bpAllocFails ==> CreateEffect(r, old(events), old(thresholdHandlerInstalled))
    {
      r := 0;
      if amdThreshold && thresholdBanks.None? {
        if bpAllocFails {
          r := -ENOMEM;
        } else {
          r := CreateBanks();
        }
      }
    }

    /**
     * What the creation loop leaves: the array published and, with the
     * thresholding IRQ enabled, the AMD handler installed; or, after the
     * first failure, its error and the banks created so far removed.
     */
    predicate CreateEffect(r: int, events0: seq<Event>, installed0: bool)
      reads this`msrs, this`miscBanks, this`smcaBanks, this`bankCounts, this`bankMap
      reads this`thresholdBanks, this`thresholdHandlerInstalled, this`events, this`thresholdingIrqEn
    {
      match CreatedBanks(numBanks)
      case AllCreated(bp) =>
        && r == 0 && thresholdBanks == Some(bp) && events == events0
        && thresholdHandlerInstalled == (installed0 || thresholdingIrqEn)
      case CreateFailed(err, bp) =>
        && r == err && thresholdBanks.None? && thresholdHandlerInstalled == installed0
        && events == events0 + RemovalEvents(bp, numBanks) + [BanksFreed]
    }

    /** The creation loop of `mce_threshold_create_device` and what follows it. */
    method CreateBanks() returns (r: int)
      requires thresholdBanks.None?
      modifies this`thresholdBanks, this`thresholdHandlerInstalled, this`events
      ensures BanksPublished()
      ensures CreateEffect(r, old(events), old(thresholdHandlerInstalled))
    {
      var bp: seq<Option<ThresholdBank>> := seq(numBanks, _ => None);
      var bank := 0;
      var failed: Option<int> := None;
      while bank < numBanks && failed.None?
        invariant bank <= numBanks && |bp| == numBanks
        invariant CreatedBanks(bank) == (if failed.None? then AllCreated(bp) else CreateFailed(failed.value, bp))
        modifies {}
        decreases numBanks - bank
      {
        if bank in bankMap {
          var b := ThresholdCreateBank(bank);
          if b.BankFailed? {
            failed := Some(b.err);
          } else {
            bp := bp[bank := Some(b.tb)];
          }
        }
        bank := bank + 1;
      }
      if failed.Some? {
        CreatedBanksFailed(bank, numBanks);
        RemoveBanks(bp);
        r := failed.value;
      } else {
        CreatedBanksExact(numBanks);
        thresholdBanks := Some(bp);
        if thresholdingIrqEn {
          thresholdHandlerInstalled := true;
        }
        r := 0;
      }
    }

    // -------------------------------------------------------------------
    // The sysfs attributes

    /** The attribute files of block `i` of `bank` exist. */
    predicate HasBlockFiles(bank: nat, i: nat)
      reads this`thresholdBanks
    {
      thresholdBanks.Some? && HasBlock(thresholdBanks.value, bank, i)
    }

    function BlockAt(bank: nat, i: nat): ThresholdBlock
      requires HasBlockFiles(bank, i)
      reads this`thresholdBanks
    {
      thresholdBanks.value[bank].value.blocks[i].b
    }

    /**
     * `store_interrupt_enable`: `-EINVAL` for a block without interrupt
     * support or a value `kstrtoul` rejects (`parsed` is its result);
     * otherwise the block's flag becomes "value nonzero" and the block is
     * restarted on its CPU, `-ENODEV` when that CPU cannot run it
     * (`online`); the flag stays changed either way.
     */
    method StoreInterruptEnable(bank: nat, i: nat, parsed: Option<bv64>, online: bool, size: nat) returns (r: int)
      requires HasBlockFiles(bank, i)
      modifies this`thresholdBanks, this`msrs
      ensures old(BanksPublished()) ==> BanksPublished()
      ensures !old(BlockAt(bank, i)).interruptCapable || parsed.None? ==>
                r == -EINVAL && thresholdBanks == old(thresholdBanks) && msrs == old(msrs)
      ensures old(BlockAt(bank, i)).interruptCapable && parsed.Some? ==>
                var b := old(BlockAt(bank, i)).(interruptEnable := parsed.value != 0);
                && thresholdBanks == Some(UpdateBlock(old(thresholdBanks).value, bank, i, b))
                && msrs == (if online then RestartBank(old(msrs), true, ThreshRestart(b, false, None, 0)) else old(msrs))
                && r == (if online then size else -ENODEV)
    {
      var b := BlockAt(bank, i);
      if !b.interruptCapable || parsed.None? {
        return -EINVAL;
      }
      b := b.(interruptEnable := parsed.value != 0);
      thresholdBanks := Some(UpdateBlock(thresholdBanks.value, bank, i, b));
      if !online {
        return -ENODEV;
      }
      ThresholdRestartBank(ThreshRestart(b, false, None, 0));
      r := size;
    }

    /**
     * `store_threshold_limit`: `-EINVAL` for a value `kstrtoul` rejects;
     * otherwise the limit becomes the value clamped to 1..THRESHOLD_MAX and
     * the block is restarted on its CPU with the old limit, so that its
     * counter moves by the difference; `-ENODEV` when that CPU cannot run it.
     */
    method StoreThresholdLimit(bank: nat, i: nat, parsed: Option<bv64>, online: bool, size: nat) returns (r: int)
      requires HasBlockFiles(bank, i)
      modifies this`thresholdBanks, this`msrs
      ensures old(BanksPublished()) ==> BanksPublished()
      ensures parsed.None? ==> r == -EINVAL && thresholdBanks == old(thresholdBanks) && msrs == old(msrs)
      ensures parsed.Some? ==>
                var b := old(BlockAt(bank, i));
                var b' := b.(thresholdLimit := ClampLimit(parsed.value));
                && thresholdBanks == Some(UpdateBlock(old(thresholdBanks).value, bank, i, b'))
                && msrs == (if online then RestartBank(old(msrs), true, ThreshRestart(b', false, None, b.thresholdLimit as bv12)) else old(msrs))
                && r == (if online then size else -ENODEV)
    {
      if parsed.None? {
        return -EINVAL;
      }
      var b := BlockAt(bank, i);
      var oldLimit := b.thresholdLimit as bv12;
      b := b.(thresholdLimit := ClampLimit(parsed.value));
      thresholdBanks := Some(UpdateBlock(thresholdBanks.value, bank, i, b));
      if !online {
        return -ENODEV;
      }
      ThresholdRestartBank(ThreshRestart(b, false, None, oldLimit));
      r := size;
    }
  }
}

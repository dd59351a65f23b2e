/**
 * Where a bank's thresholding blocks live (`get_block_address`,
 * `smca_get_block_address`) and the two walks that discover them: the init
 * loop of `mce_amd_feature_init`, which programs every usable block, and
 * the recursion of `allocate_threshold_blocks`, which builds the bank's
 * block list.
 *
 * Both walks probe the same addresses in the same order, captured once by
 * `ProbesFrom`; they differ in what they do with an invalid block 0 (the
 * init loop goes on, the allocator stops) and the allocator inserts every
 * later block right after the list head.
 */
module AmdBlocks {
  import opened Wrappers
  import opened McaRegs
  import opened AmdThreshold
  import opened AmdNames

  /** `MCG_XBLK_ADDR`: the base of the legacy extended MISC blocks. */
  const MCG_XBLK_ADDR: int := 0xC000_0400

  const ENOMEM: int := 12

  /** The per-CPU facts `get_block_address` reads besides its arguments. */
  datatype AddrCfg = AddrCfg(smca: bool, numBanks: nat, miscBanks: set<nat>)

  /** `smca_get_block_address`: MISC0, then MISC1..4 only for banks in `smca_misc_banks_map`. */
  function SmcaGetBlockAddress(miscBanks: set<nat>, bank: nat, block: nat): (a: u32)
    ensures block > 0 && bank !in miscBanks ==> a == 0
  {
    if block == 0 then SmcaMisc0(bank)
    else if bank !in miscBanks then 0
    else SmcaMiscY(bank, block - 1)
  }

  /** The byte offset of block 1 from `MCG_XBLK_ADDR`: `(low & MASK_BLKPTR_LO) >> 21`. */
  function BlkPtrOffset(low: bv32): nat
  {
    ((low & MASK_BLKPTR_LO) >> 21) as int
  }

  lemma BlkPtrBound(low: bv32)
    ensures BlkPtrOffset(low) <= 0x7F8
  {
    assert (low & MASK_BLKPTR_LO) >> 21 <= 0x7F8;
  }

  /**
   * `get_block_address`: the MSR of block `block` of `bank`, or 0 for none.
   * `current` is the previous block's address and `low` the low word read
   * from it (the high word the source also passes is unused).
   */
  function GetBlockAddress(cfg: AddrCfg, current: u32, low: bv32, bank: nat, block: nat): (a: u32)
    ensures bank >= cfg.numBanks || block >= NR_BLOCKS ==> a == 0
    ensures cfg.smca && block > 0 && bank !in cfg.miscBanks ==> a == 0
  {
    if bank >= cfg.numBanks || block >= NR_BLOCKS then 0
    else if cfg.smca then SmcaGetBlockAddress(cfg.miscBanks, bank, block)
    else if block == 0 then LegacyMsr(bank, Misc)
    else if block == 1 then (if BlkPtrOffset(low) != 0 then U32(MCG_XBLK_ADDR + BlkPtrOffset(low)) else 0)
    else U32(current + 1)
  }

  /**
   * The register layout a bank's blocks belong to, stated without
   * `get_block_address`: on SMCA parts MISC0 and then MISC1..4 of the bank's
   * 16-register window; on legacy parts MC<bank>_MISC and then a run of
   * registers above `MCG_XBLK_ADDR` that block 1's pointer starts.
   */
  predicate InBankLayout(cfg: AddrCfg, bank: nat, block: nat, a: int)
  {
    if cfg.smca then
      a == SMCA_BASE + 0x10 * bank + (if block == 0 then 3 else 0xA + block - 1)
    else if block == 0 then a == 0x400 + 4 * bank + 3
    else MCG_XBLK_ADDR < a <= MCG_XBLK_ADDR + 0x7F8 + (block - 1)
  }

  lemma U32Small(n: int)
    requires 0 <= n < 0x1_0000_0000
    ensures U32(n) == n
  {
  }

  /**
   * Every address `get_block_address` yields lies in the bank's layout, and
   * (for a later block) above the previous block's address: no 32-bit
   * wrap-around happens for the at most 64 banks.
   */
  lemma {:induction false} BlockAddressInLayout(cfg: AddrCfg, current: u32, low: bv32, bank: nat, block: nat)
    requires GetBlockAddress(cfg, current, low, bank, block) != 0
    ensures cfg.numBanks <= MAX_NR_BANKS && (block > 0 ==> InBankLayout(cfg, bank, block - 1, current)) ==>
              InBankLayout(cfg, bank, block, GetBlockAddress(cfg, current, low, bank, block))
              && (block > 0 ==> GetBlockAddress(cfg, current, low, bank, block) > current)
  {
    var base := SMCA_BASE + 0x10 * bank;
    if cfg.numBanks > MAX_NR_BANKS || (block > 0 && !InBankLayout(cfg, bank, block - 1, current)) {
    } else if cfg.smca {
      if block == 0 {
        U32Small(base + 3);
      } else {
        U32Small(base + 0xA + (block - 1));
      }
    } else if block == 0 {
      U32Small(0x400 + 4 * bank + 3);
    } else if block == 1 {
      BlkPtrBound(low);
      U32Small(MCG_XBLK_ADDR + BlkPtrOffset(low));
    } else {
      U32Small(current + 1);
    }
  }

  /** One register visited by a walk: the block index, its MSR and what `rdmsr_safe` read. */
  datatype Probe = Probe(block: nat, address: u32, reg: Reg)

  /**
   * The registers both walks visit from `block` on: each address comes from
   * `get_block_address` applied to the previous one, and the walk ends at a
   * zero address or a read that faults.
   */
  function ProbesFrom(m: MsrFile, cfg: AddrCfg, bank: nat, block: nat, current: u32, low: bv32): (ps: seq<Probe>)
    ensures forall i :: 0 <= i < |ps| ==> ps[i].block == block + i
    ensures ps != [] ==> block + |ps| <= NR_BLOCKS
    ensures forall i :: 0 <= i < |ps| ==> ps[i].address != 0 && ps[i].address in m && ps[i].reg == m[ps[i].address]
    decreases NR_BLOCKS - block
  {
    if block >= NR_BLOCKS then []
    else
      var a := GetBlockAddress(cfg, current, low, bank, block);
      if a == 0 || a !in m then []
      else [Probe(block, a, m[a])] + ProbesFrom(m, cfg, bank, block + 1, a, m[a].lo)
  }

  /**
   * For at most 64 banks the addresses a walk visits lie in the bank's
   * layout, the first above the address the walk starts from and each above
   * the one before it.
   */
  lemma {:induction false} ProbesInLayout(m: MsrFile, cfg: AddrCfg, bank: nat, block: nat, current: u32, low: bv32,
                                        ps: seq<Probe>)
    requires cfg.numBanks <= MAX_NR_BANKS && (block > 0 ==> InBankLayout(cfg, bank, block - 1, current))
    requires ps == ProbesFrom(m, cfg, bank, block, current, low)
    ensures && (forall i :: 0 <= i < |ps| ==> InBankLayout(cfg, bank, ps[i].block, ps[i].address))
            && (block > 0 && ps != [] ==> ps[0].address > current)
            && (forall i :: 0 < i < |ps| ==> ps[i - 1].address < ps[i].address)
    decreases NR_BLOCKS - block
  {
    if block < NR_BLOCKS {
      var a := GetBlockAddress(cfg, current, low, bank, block);
      if a != 0 && a in m {
        BlockAddressInLayout(cfg, current, low, bank, block);
        var rest := ProbesFrom(m, cfg, bank, block + 1, a, m[a].lo);
        ProbesInLayout(m, cfg, bank, block + 1, a, m[a].lo, rest);
        assert ps == [Probe(block, a, m[a])] + rest;
      }
    }
  }

  /** The registers visited for one bank, from block 0 (whose address depends on nothing before it). */
  function BankProbes(m: MsrFile, cfg: AddrCfg, bank: nat): (ps: seq<Probe>)
    ensures |ps| <= NR_BLOCKS
    ensures forall i :: 0 <= i < |ps| ==> ps[i].block == i
  {
    ProbesFrom(m, cfg, bank, 0, 0, 0)
  }

  predicate Increasing(ps: seq<Probe>)
  {
    forall i, j :: 0 <= i < j < |ps| ==> ps[i].address < ps[j].address
  }

  lemma {:induction false} AdjacentIncreasing(ps: seq<Probe>)
    requires forall i :: 0 < i < |ps| ==> ps[i - 1].address < ps[i].address
    ensures Increasing(ps)
  {
    if ps != [] {
      var init := ps[..|ps| - 1];
      assert forall i :: 0 <= i < |init| ==> init[i] == ps[i];
      AdjacentIncreasing(init);
      forall i, j | 0 <= i < j < |ps|
        ensures ps[i].address < ps[j].address
      {
        if j < |ps| - 1 {
          assert ps[i] == init[i] && ps[j] == init[j];
        } else if i < j - 1 {
          assert ps[i] == init[i] && ps[j - 1] == init[j - 1];
        }
      }
    }
  }

  /** The visited addresses strictly increase: a walk never visits a register twice. */
  lemma ProbesIncrease(m: MsrFile, cfg: AddrCfg, bank: nat)
    requires cfg.numBanks <= MAX_NR_BANKS
    ensures Increasing(BankProbes(m, cfg, bank))
  {
    var ps := BankProbes(m, cfg, bank);
    ProbesInLayout(m, cfg, bank, 0, 0, 0, ps);
    AdjacentIncreasing(ps);
  }

  /** A block the walks set up: VALID and CNTP set and LOCKED clear in the high word. */
  predicate Usable(hi: bv32)
  {
    var f := DecodeMisc(hi);
    f.valid && f.cntp && !f.locked
  }

  /** The usable blocks among `ps`, in visiting order. */
  function Candidates(ps: seq<Probe>): (cs: seq<Probe>)
    ensures |cs| <= |ps|
  {
    if ps == [] then []
    else (if Usable(ps[0].reg.hi) then [ps[0]] else []) + Candidates(ps[1..])
  }

  /** The candidates are exactly the usable visited blocks. */
  lemma {:induction false} CandidatesAreUsable(ps: seq<Probe>)
    ensures forall p :: p in Candidates(ps) <==> p in ps && Usable(p.reg.hi)
  {
    if ps != [] {
      CandidatesAreUsable(ps[1..]);
      assert ps == [ps[0]] + ps[1..];
    }
  }

  /**
   * The blocks the init loop of `mce_amd_feature_init` hands to
   * `prepare_threshold_block` for one bank: every usable one, whatever
   * block 0 held.
   */
  function InitBlocks(m: MsrFile, cfg: AddrCfg, bank: nat): seq<Probe>
  {
    Candidates(BankProbes(m, cfg, bank))
  }

  /** The block `allocate_threshold_blocks` fills in for a usable probe, limit at its maximum. */
  function NewBlock(cpu: nat, bank: nat, p: Probe): (b: ThresholdBlock)
    ensures b.interruptEnable == b.interruptCapable
  {
    var capable := LvtInterruptSupported(bank, p.reg.hi);
    ThresholdBlock(p.block, bank, cpu, p.address, capable, capable, THRESHOLD_MAX)
  }

  /** A created block and its sysfs name. */
  datatype SysfsBlock = SysfsBlock(b: ThresholdBlock, name: Option<string>)

  /**
   * What the allocator reads besides the registers: the CPU, the naming
   * state of the bank, and which block indices' allocation fails
   * (`kzalloc` returning NULL, an input of the model).
   */
  datatype AllocCtx = AllocCtx(cpu: nat, smca: bool, naming: BankNaming, failing: set<nat>)

  function Create(ctx: AllocCtx, bank: nat, p: Probe): SysfsBlock
  {
    SysfsBlock(NewBlock(ctx.cpu, bank, p), GetName(ctx.smca, ctx.naming, bank, Some(BlockRef(p.block, p.address))))
  }

  /** `list_add` after the head; the first block becomes the head (`tb->blocks`). */
  function InsertAfterHead<T>(list: seq<T>, x: T): (r: seq<T>)
    ensures |r| == |list| + 1
    ensures list != [] ==> r[0] == list[0]
  {
    if list == [] then [x] else [list[0], x] + list[1..]
  }

  datatype AllocResult = Allocated(blocks: seq<SysfsBlock>) | AllocFailed(err: int)

  /** One `struct threshold_bank`: its sysfs name and its block list, head first. */
  datatype ThresholdBank = ThresholdBank(name: Option<string>, blocks: seq<SysfsBlock>)

  /**
   * `allocate_threshold_blocks` over the visited registers: an invalid block 0
   * ends the walk with nothing created; an invalid, counter-less or locked
   * later block is skipped; a failing allocation ends it with `-ENOMEM`.
   */
  function AllocWalk(ctx: AllocCtx, bank: nat, ps: seq<Probe>, list: seq<SysfsBlock>): AllocResult
    decreases |ps|
  {
    if ps == [] then Allocated(list)
    else if !DecodeMisc(ps[0].reg.hi).valid && ps[0].block == 0 then Allocated(list)
    else if !Usable(ps[0].reg.hi) then AllocWalk(ctx, bank, ps[1..], list)
    else if ps[0].block in ctx.failing then AllocFailed(-ENOMEM)
    else AllocWalk(ctx, bank, ps[1..], InsertAfterHead(list, Create(ctx, bank, ps[0])))
  }

  /** The result of allocating one bank's blocks from its registers. */
  function AllocateBank(ctx: AllocCtx, m: MsrFile, cfg: AddrCfg, bank: nat): AllocResult
  {
    AllocWalk(ctx, bank, BankProbes(m, cfg, bank), [])
  }

  function Reverse<T>(s: seq<T>): (r: seq<T>)
    ensures |r| == |s|
    ensures forall i :: 0 <= i < |s| ==> r[i] == s[|s| - 1 - i]
  {
    if s == [] then [] else Reverse(s[1..]) + [s[0]]
  }

  /** The list after creating `xs` in this order: the first is the head, the rest follow newest first. */
  function ListOrder<T>(xs: seq<T>): seq<T>
  {
    if xs == [] then [] else [xs[0]] + Reverse(xs[1..])
  }

  function CreateAll(ctx: AllocCtx, bank: nat, cs: seq<Probe>): (r: seq<SysfsBlock>)
    ensures |r| == |cs|
    ensures forall i :: 0 <= i < |cs| ==> r[i] == Create(ctx, bank, cs[i])
  {
    if cs == [] then [] else [Create(ctx, bank, cs[0])] + CreateAll(ctx, bank, cs[1..])
  }

  /** No allocation among `cs` fails. */
  predicate AllocatesAll(ctx: AllocCtx, cs: seq<Probe>)
  {
    forall q :: q in cs ==> q.block !in ctx.failing
  }

  lemma {:induction false} InsertAfterHeadOrder<T>(xs: seq<T>, x: T)
    ensures InsertAfterHead(ListOrder(xs), x) == ListOrder(xs + [x])
  {
    if xs != [] {
      assert (xs + [x])[1..] == xs[1..] + [x];
      ReverseAppend(xs[1..], x);
    }
  }

  lemma ReverseAppend<T>(s: seq<T>, x: T)
    ensures Reverse(s + [x]) == [x] + Reverse(s)
  {
  }

  lemma CreateAllAppend(ctx: AllocCtx, bank: nat, done: seq<Probe>, p: Probe)
    ensures CreateAll(ctx, bank, done + [p]) == CreateAll(ctx, bank, done) + [Create(ctx, bank, p)]
  {
  }

  /** No visited block 0 is invalid: the case where the allocator walks like the init loop. */
  predicate NoInvalidBlockZero(ps: seq<Probe>)
  {
    forall i :: 0 <= i < |ps| ==> ps[i].block != 0 || DecodeMisc(ps[i].reg.hi).valid
  }

  /**
   * The allocator's list for probes with no invalid block 0: the usable
   * blocks in list order, unless one of their allocations fails.
   */
  lemma {:induction false} AllocWalkResult(ctx: AllocCtx, bank: nat, ps: seq<Probe>, done: seq<Probe>)
    requires NoInvalidBlockZero(ps)
    ensures AllocWalk(ctx, bank, ps, ListOrder(CreateAll(ctx, bank, done)))
         == if AllocatesAll(ctx, Candidates(ps)) then Allocated(ListOrder(CreateAll(ctx, bank, done + Candidates(ps))))
            else AllocFailed(-ENOMEM)
    decreases |ps|
  {
    var list := ListOrder(CreateAll(ctx, bank, done));
    if ps == [] {
      assert done + Candidates(ps) == done;
    } else {
      var p, rest := ps[0], ps[1..];
      assert NoInvalidBlockZero(rest) by {
        assert forall i :: 0 <= i < |rest| ==> rest[i] == ps[i + 1];
      }
      var cs, crest := Candidates(ps), Candidates(rest);
      if !Usable(p.reg.hi) {
        assert AllocWalk(ctx, bank, ps, list) == AllocWalk(ctx, bank, rest, list);
        assert cs == crest;
        AllocWalkResult(ctx, bank, rest, done);
      } else if p.block in ctx.failing {
        assert cs == [p] + crest;
        assert p in cs;
      } else {
        var c := Create(ctx, bank, p);
        assert AllocWalk(ctx, bank, ps, list) == AllocWalk(ctx, bank, rest, InsertAfterHead(list, c));
        InsertAfterHeadOrder(CreateAll(ctx, bank, done), c);
        CreateAllAppend(ctx, bank, done, p);
        assert InsertAfterHead(list, c) == ListOrder(CreateAll(ctx, bank, done + [p]));
        AllocWalkResult(ctx, bank, rest, done + [p]);
        assert cs == [p] + crest;
        assert AllocatesAll(ctx, cs) == AllocatesAll(ctx, crest) by {
          assert forall q :: q in cs <==> q == p || q in crest;
        }
        assert done + [p] + crest == done + cs;
      }
    }
  }

  /**
   * `allocate_threshold_blocks` for a bank: nothing when block 0 is invalid;
   * otherwise the usable blocks the init loop also programs
   * (`InitBlocks`), the first one at the head and the others after it in
   * reverse discovery order, or `-ENOMEM` when an allocation fails.
   */
  lemma {:induction false} AllocateBankResult(ctx: AllocCtx, m: MsrFile, cfg: AddrCfg, bank: nat)
    ensures var ps := BankProbes(m, cfg, bank);
            (AllocateBank(ctx, m, cfg, bank)
             == if ps != [] && !DecodeMisc(ps[0].reg.hi).valid then Allocated([])
                else if AllocatesAll(ctx, InitBlocks(m, cfg, bank)) then Allocated(ListOrder(CreateAll(ctx, bank, InitBlocks(m, cfg, bank))))
                else AllocFailed(-ENOMEM))
  {
    var ps := BankProbes(m, cfg, bank);
    if ps != [] && !DecodeMisc(ps[0].reg.hi).valid {
    } else {
      assert ListOrder(CreateAll(ctx, bank, [])) == [];
      AllocWalkResult(ctx, bank, ps, []);
      assert [] + Candidates(ps) == Candidates(ps);
    }
  }

  lemma {:induction false} ReversePermutes<T>(s: seq<T>)
    ensures multiset(Reverse(s)) == multiset(s)
  {
    if s != [] {
      ReversePermutes(s[1..]);
      assert s == [s[0]] + s[1..];
    }
  }

  /** The list holds exactly the created blocks, each once: only their order differs. */
  lemma {:induction false} ListOrderPermutes<T>(xs: seq<T>)
    ensures multiset(ListOrder(xs)) == multiset(xs)
  {
    if xs != [] {
      ReversePermutes(xs[1..]);
      assert xs == [xs[0]] + xs[1..];
    }
  }

  /**
   * A created block stands for a usable register of the map: it belongs to
   * the bank, its limit is the maximum, and it can interrupt exactly when
   * its bank supports it.
   */
  predicate CreatedFrom(m: MsrFile, bank: nat, x: SysfsBlock)
  {
    x.b.address in m && Usable(m[x.b.address].hi) && x.b.bank == bank && x.b.block < NR_BLOCKS
    && x.b.thresholdLimit == THRESHOLD_MAX
    && x.b.interruptCapable == LvtInterruptSupported(bank, m[x.b.address].hi)
  }

  lemma {:induction false} CandidateCreatedFrom(ctx: AllocCtx, m: MsrFile, cfg: AddrCfg, bank: nat, c: Probe)
    requires c in InitBlocks(m, cfg, bank)
    ensures CreatedFrom(m, bank, Create(ctx, bank, c))
  {
    var ps := BankProbes(m, cfg, bank);
    CandidatesAreUsable(ps);
    var i :| 0 <= i < |ps| && ps[i] == c;
  }

  /** Every block the allocator creates comes from a usable register of the bank (`CreatedFrom`). */
  lemma {:induction false} AllocatedBlocksUsable(ctx: AllocCtx, m: MsrFile, cfg: AddrCfg, bank: nat)
    requires AllocateBank(ctx, m, cfg, bank).Allocated?
    ensures forall x :: x in AllocateBank(ctx, m, cfg, bank).blocks ==> CreatedFrom(m, bank, x)
  {
    AllocateBankResult(ctx, m, cfg, bank);
    var ps := BankProbes(m, cfg, bank);
    var cs := InitBlocks(m, cfg, bank);
    var bs := AllocateBank(ctx, m, cfg, bank).blocks;
    if ps == [] || DecodeMisc(ps[0].reg.hi).valid {
      var created := CreateAll(ctx, bank, cs);
      assert bs == ListOrder(created);
      ListOrderPermutes(created);
      forall x | x in bs
        ensures CreatedFrom(m, bank, x)
      {
        assert x in multiset(created);
        var k :| 0 <= k < |created| && created[k] == x;
        CandidateCreatedFrom(ctx, m, cfg, bank, cs[k]);
      }
    }
  }

  /**
   * The two walks really differ: with an invalid block 0 whose pointer
   * still leads to a usable block 1, the init loop programs block 1 while
   * the allocator creates nothing for the bank.
   */
  lemma InvalidBlockZeroDifference()
    ensures var m: MsrFile := map[0x403 := Reg(0x0100_0000, 0), 0xC000_0408 := Reg(0, 0xC000_0000)];
            var cfg := AddrCfg(false, 1, {});
            var ctx := AllocCtx(0, false, BankNaming(None, 0, 0), {});
            |InitBlocks(m, cfg, 0)| == 1 && InitBlocks(m, cfg, 0)[0].block == 1
            && AllocateBank(ctx, m, cfg, 0) == Allocated([])
  {
    var m: MsrFile := map[0x403 := Reg(0x0100_0000, 0), 0xC000_0408 := Reg(0, 0xC000_0000)];
    var cfg := AddrCfg(false, 1, {});
    assert BlkPtrOffset(0x0100_0000) == 8;
    assert GetBlockAddress(cfg, 0, 0, 0, 0) == 0x403;
    assert GetBlockAddress(cfg, 0x403, 0x0100_0000, 0, 1) == 0xC000_0408;
    assert GetBlockAddress(cfg, 0xC000_0408, 0, 0, 2) == 0xC000_0409;
    var p0 := Probe(0, 0x403, Reg(0x0100_0000, 0));
    var p1 := Probe(1, 0xC000_0408, Reg(0, 0xC000_0000));
    assert ProbesFrom(m, cfg, 0, 2, 0xC000_0408, 0) == [];
    assert BankProbes(m, cfg, 0) == [p0, p1];
    assert !Usable(0) && !DecodeMisc(0).valid;
    assert Usable(0xC000_0000);
    assert Candidates([p1]) == [p1];
  }
}

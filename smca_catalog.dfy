/**
 * The Scalable MCA bank-type catalog: the semantic bank types, their names, and
 * the compiled-in table from a (hardware id, MCA type) pair to a bank type.
 */
module SmcaCatalog {
  import opened Wrappers

  /** `enum smca_bank_types`, in declaration order; `N_SMCA_BANK_TYPES` is `None` in an `Option<BankType>`. */
  datatype BankType =
    | LS | LS_V2 | IF | L2_CACHE | DE | RESERVED | EX | FP | L3_CACHE
    | CS | CS_V2 | PIE | UMC | UMC_V2 | MA_LLC | PB | PSP | PSP_V2
    | SMU | SMU_V2 | MP5 | MPDMA | NBIO | PCIE | PCIE_V2 | XGMI_PCS
    | NBIF | SHUB | SATA | USB | USR_DP | USR_CP | GMI_PCS | XGMI_PHY
    | WAFL_PHY | GMI_PHY

  /** `smca_names[t]`. */
  function TypeName(t: BankType): string
  {
    match t
    case LS | LS_V2 => "load_store"
    case IF => "insn_fetch"
    case L2_CACHE => "l2_cache"
    case DE => "decode_unit"
    case RESERVED => "reserved"
    case EX => "execution_unit"
    case FP => "floating_point"
    case L3_CACHE => "l3_cache"
    case CS | CS_V2 => "coherent_slave"
    case PIE => "pie"
    case UMC => "umc"
    case UMC_V2 => "umc_v2"
    case MA_LLC => "ma_llc"
    case PB => "param_block"
    case PSP | PSP_V2 => "psp"
    case SMU | SMU_V2 => "smu"
    case MP5 => "mp5"
    case MPDMA => "mpdma"
    case NBIO => "nbio"
    case PCIE | PCIE_V2 => "pcie"
    case XGMI_PCS => "xgmi_pcs"
    case NBIF => "nbif"
    case SHUB => "shub"
    case SATA => "sata"
    case USB => "usb"
    case USR_DP => "usr_dp"
    case USR_CP => "usr_cp"
    case GMI_PCS => "gmi_pcs"
    case XGMI_PHY => "xgmi_phy"
    case WAFL_PHY => "wafl_phy"
    case GMI_PHY => "gmi_phy"
  }

  /** `smca_get_name`: no name for the "no type" value. */
  function SmcaGetName(t: Option<BankType>): (r: Option<string>)
    ensures r.Some? <==> t.Some?
    ensures r.Some? ==> 0 < |r.value| <= 14
  {
    match t
    case None => None
    case Some(bt) => Some(TypeName(bt))
  }

  /**
   * `HWID_MCATYPE(hwid, mcatype)`: the hardware id above bit 16, the MCA type
   * below it.  The two fields never overlap (the type is 16 bits wide), so the
   * bitwise or is a sum.
   */
  function HwidMcatype(hwid: nat, mcatype: nat): (key: nat)
    requires mcatype < 0x1_0000
    ensures key / 0x1_0000 == hwid && key % 0x1_0000 == mcatype
  {
    hwid * 0x1_0000 + mcatype
  }

  /** One `struct smca_hwid`. */
  datatype SmcaHwid = SmcaHwid(bankType: BankType, hwidMcatype: nat)

  /** `smca_hwid_mcatypes[]`, in table order; each key is `HwidMcatype(hwid, mcatype)`. */
  const Catalog: seq<SmcaHwid> := [
    SmcaHwid(RESERVED, 0x0),  // hwid 0x0, mcatype 0x0
    SmcaHwid(LS, 0xB00000),  // hwid 0xB0, mcatype 0x0
    SmcaHwid(LS_V2, 0xB00010),  // hwid 0xB0, mcatype 0x10
    SmcaHwid(IF, 0xB00001),  // hwid 0xB0, mcatype 0x1
    SmcaHwid(L2_CACHE, 0xB00002),  // hwid 0xB0, mcatype 0x2
    SmcaHwid(DE, 0xB00003),  // hwid 0xB0, mcatype 0x3
    SmcaHwid(EX, 0xB00005),  // hwid 0xB0, mcatype 0x5
    SmcaHwid(FP, 0xB00006),  // hwid 0xB0, mcatype 0x6
    SmcaHwid(L3_CACHE, 0xB00007),  // hwid 0xB0, mcatype 0x7
    SmcaHwid(CS, 0x2E0000),  // hwid 0x2E, mcatype 0x0
    SmcaHwid(PIE, 0x2E0001),  // hwid 0x2E, mcatype 0x1
    SmcaHwid(CS_V2, 0x2E0002),  // hwid 0x2E, mcatype 0x2
    SmcaHwid(MA_LLC, 0x2E0004),  // hwid 0x2E, mcatype 0x4
    SmcaHwid(UMC, 0x960000),  // hwid 0x96, mcatype 0x0
    SmcaHwid(UMC_V2, 0x960001),  // hwid 0x96, mcatype 0x1
    SmcaHwid(PB, 0x50000),  // hwid 0x5, mcatype 0x0
    SmcaHwid(PSP, 0xFF0000),  // hwid 0xFF, mcatype 0x0
    SmcaHwid(PSP_V2, 0xFF0001),  // hwid 0xFF, mcatype 0x1
    SmcaHwid(SMU, 0x10000),  // hwid 0x1, mcatype 0x0
    SmcaHwid(SMU_V2, 0x10001),  // hwid 0x1, mcatype 0x1
    SmcaHwid(MP5, 0x10002),  // hwid 0x1, mcatype 0x2
    SmcaHwid(MPDMA, 0x10003),  // hwid 0x1, mcatype 0x3
    SmcaHwid(NBIO, 0x180000),  // hwid 0x18, mcatype 0x0
    SmcaHwid(PCIE, 0x460000),  // hwid 0x46, mcatype 0x0
    SmcaHwid(PCIE_V2, 0x460001),  // hwid 0x46, mcatype 0x1
    SmcaHwid(XGMI_PCS, 0x500000),  // hwid 0x50, mcatype 0x0
    SmcaHwid(NBIF, 0x6C0000),  // hwid 0x6C, mcatype 0x0
    SmcaHwid(SHUB, 0x800000),  // hwid 0x80, mcatype 0x0
    SmcaHwid(SATA, 0xA80000),  // hwid 0xA8, mcatype 0x0
    SmcaHwid(USB, 0xAA0000),  // hwid 0xAA, mcatype 0x0
    SmcaHwid(USR_DP, 0x1700000),  // hwid 0x170, mcatype 0x0
    SmcaHwid(USR_CP, 0x1800000),  // hwid 0x180, mcatype 0x0
    SmcaHwid(GMI_PCS, 0x2410000),  // hwid 0x241, mcatype 0x0
    SmcaHwid(XGMI_PHY, 0x2590000),  // hwid 0x259, mcatype 0x0
    SmcaHwid(WAFL_PHY, 0x2670000),  // hwid 0x267, mcatype 0x0
    SmcaHwid(GMI_PHY, 0x2690000)  // hwid 0x269, mcatype 0x0
  ]

  /**
   * The catalog search of `smca_configure`: a linear scan of `table` from
   * index `from` that stops at the first entry whose key equals `key`.
   */
  function FindFrom(table: seq<SmcaHwid>, key: nat, from: nat): (r: Option<nat>)
    requires from <= |table|
    ensures r.Some? ==> from <= r.value < |table| && table[r.value].hwidMcatype == key
    ensures r.Some? ==> forall j :: from <= j < r.value ==> table[j].hwidMcatype != key
    ensures r.None? ==> forall j :: from <= j < |table| ==> table[j].hwidMcatype != key
    decreases |table| - from
  {
    if from == |table| then None
    else if table[from].hwidMcatype == key then Some(from)
    else FindFrom(table, key, from + 1)
  }

  /** The first catalog entry with key `key`, if any. */
  function Find(key: nat): (r: Option<nat>)
    ensures r.Some? ==> r.value < |Catalog| && Catalog[r.value].hwidMcatype == key
    ensures r.None? <==> forall j :: 0 <= j < |Catalog| ==> Catalog[j].hwidMcatype != key
  {
    FindFrom(Catalog, key, 0)
  }

  /** The table read backwards: the row holding `key`, or -1 for a key it lacks. */
  function RowOf(key: nat): int
  {
    if key == 0x0 then 0
    else if key == 0xB00000 then 1
    else if key == 0xB00010 then 2
    else if key == 0xB00001 then 3
    else if key == 0xB00002 then 4
    else if key == 0xB00003 then 5
    else if key == 0xB00005 then 6
    else if key == 0xB00006 then 7
    else if key == 0xB00007 then 8
    else if key == 0x2E0000 then 9
    else if key == 0x2E0001 then 10
    else if key == 0x2E0002 then 11
    else if key == 0x2E0004 then 12
    else if key == 0x960000 then 13
    else if key == 0x960001 then 14
    else if key == 0x50000 then 15
    else if key == 0xFF0000 then 16
    else if key == 0xFF0001 then 17
    else if key == 0x10000 then 18
    else if key == 0x10001 then 19
    else if key == 0x10002 then 20
    else if key == 0x10003 then 21
    else if key == 0x180000 then 22
    else if key == 0x460000 then 23
    else if key == 0x460001 then 24
    else if key == 0x500000 then 25
    else if key == 0x6C0000 then 26
    else if key == 0x800000 then 27
    else if key == 0xA80000 then 28
    else if key == 0xAA0000 then 29
    else if key == 0x1700000 then 30
    else if key == 0x1800000 then 31
    else if key == 0x2410000 then 32
    else if key == 0x2590000 then 33
    else if key == 0x2670000 then 34
    else if key == 0x2690000 then 35
    else -1
  }

  lemma RowOfEntries0(i: nat)
    requires 0 <= i < 6
    ensures RowOf(Catalog[i].hwidMcatype) == i
  {
    if i == 0 { assert Catalog[0].hwidMcatype == 0x0;
    } else if i == 1 { assert Catalog[1].hwidMcatype == 0xB00000;
    } else if i == 2 { assert Catalog[2].hwidMcatype == 0xB00010;
    } else if i == 3 { assert Catalog[3].hwidMcatype == 0xB00001;
    } else if i == 4 { assert Catalog[4].hwidMcatype == 0xB00002;
    } else { assert Catalog[5].hwidMcatype == 0xB00003;
    }
  }

  lemma RowOfEntries6(i: nat)
    requires 6 <= i < 12
    ensures RowOf(Catalog[i].hwidMcatype) == i
  {
    if i == 6 { assert Catalog[6].hwidMcatype == 0xB00005;
    } else if i == 7 { assert Catalog[7].hwidMcatype == 0xB00006;
    } else if i == 8 { assert Catalog[8].hwidMcatype == 0xB00007;
    } else if i == 9 { assert Catalog[9].hwidMcatype == 0x2E0000;
    } else if i == 10 { assert Catalog[10].hwidMcatype == 0x2E0001;
    } else { assert Catalog[11].hwidMcatype == 0x2E0002;
    }
  }

  lemma RowOfEntries12(i: nat)
    requires 12 <= i < 18
    ensures RowOf(Catalog[i].hwidMcatype) == i
  {
    if i == 12 { assert Catalog[12].hwidMcatype == 0x2E0004;
    } else if i == 13 { assert Catalog[13].hwidMcatype == 0x960000;
    } else if i == 14 { assert Catalog[14].hwidMcatype == 0x960001;
    } else if i == 15 { assert Catalog[15].hwidMcatype == 0x50000;
    } else if i == 16 { assert Catalog[16].hwidMcatype == 0xFF0000;
    } else { assert Catalog[17].hwidMcatype == 0xFF0001;
    }
  }

  lemma RowOfEntries18(i: nat)
    requires 18 <= i < 24
    ensures RowOf(Catalog[i].hwidMcatype) == i
  {
    if i == 18 { assert Catalog[18].hwidMcatype == 0x10000;
    } else if i == 19 { assert Catalog[19].hwidMcatype == 0x10001;
    } else if i == 20 { assert Catalog[20].hwidMcatype == 0x10002;
    } else if i == 21 { assert Catalog[21].hwidMcatype == 0x10003;
    } else if i == 22 { assert Catalog[22].hwidMcatype == 0x180000;
    } else { assert Catalog[23].hwidMcatype == 0x460000;
    }
  }

  lemma RowOfEntries24(i: nat)
    requires 24 <= i < 30
    ensures RowOf(Catalog[i].hwidMcatype) == i
  {
    if i == 24 { assert Catalog[24].hwidMcatype == 0x460001;
    } else if i == 25 { assert Catalog[25].hwidMcatype == 0x500000;
    } else if i == 26 { assert Catalog[26].hwidMcatype == 0x6C0000;
    } else if i == 27 { assert Catalog[27].hwidMcatype == 0x800000;
    } else if i == 28 { assert Catalog[28].hwidMcatype == 0xA80000;
    } else { assert Catalog[29].hwidMcatype == 0xAA0000;
    }
  }

  lemma RowOfEntries30(i: nat)
    requires 30 <= i < 36
    ensures RowOf(Catalog[i].hwidMcatype) == i
  {
    if i == 30 { assert Catalog[30].hwidMcatype == 0x1700000;
    } else if i == 31 { assert Catalog[31].hwidMcatype == 0x1800000;
    } else if i == 32 { assert Catalog[32].hwidMcatype == 0x2410000;
    } else if i == 33 { assert Catalog[33].hwidMcatype == 0x2590000;
    } else if i == 34 { assert Catalog[34].hwidMcatype == 0x2670000;
    } else { assert Catalog[35].hwidMcatype == 0x2690000;
    }
  }

  /** Reading the table backwards at a row's key gives that row. */
  lemma RowOfEntry(i: nat)
    requires i < |Catalog|
    ensures RowOf(Catalog[i].hwidMcatype) == i
  {
    if i < 6 { RowOfEntries0(i); }
    else if i < 12 { RowOfEntries6(i); }
    else if i < 18 { RowOfEntries12(i); }
    else if i < 24 { RowOfEntries18(i); }
    else if i < 30 { RowOfEntries24(i); }
    else { RowOfEntries30(i); }
  }

  /** The table holds no key twice, so the first match is the only one. */
  lemma CatalogKeysDistinct()
    ensures forall i, j :: 0 <= i < j < |Catalog| ==> Catalog[i].hwidMcatype != Catalog[j].hwidMcatype
  {
    forall i, j | 0 <= i < j < |Catalog|
      ensures Catalog[i].hwidMcatype != Catalog[j].hwidMcatype
    {
      RowOfEntry(i);
      RowOfEntry(j);
    }
  }

  /** Every catalog entry classifies as its own bank type. */
  lemma CatalogClassifiesEachEntry(i: nat)
    requires i < |Catalog|
    ensures Find(Catalog[i].hwidMcatype) == Some(i)
  {
    CatalogKeysDistinct();
  }
}

# Kernel error-threshold, misaligned-access and CIFS setting models in Dafny

This project models three pieces of the Linux kernel and proves properties of them.

- **AMD machine-check thresholding** (`arch/x86/kernel/cpu/mce/amd.c`):
  - the Scalable MCA bank catalog and bank configuration (`smca_configure`);
  - the MCA_MISC thresholding blocks, their addresses and the two walks that find them (the init loop of `mce_amd_feature_init` and `allocate_threshold_blocks`);
  - the error counter kept in each block (`threshold_restart_bank`) and the APIC LVT offset reservation;
  - the deferred-error and threshold interrupt handlers and their logging paths;
  - the per-CPU sysfs device and the `interrupt_enable`/`threshold_limit` stores;
  - the record classification (`amd_mce_is_memory_error`, `amd_mce_usable_address`, `amd_filter_mce`).
  - `bank_map` is set only by `prepare_threshold_block` for block 0, so a bank whose block 0 is invalid stays out of it;
  - when a new threshold limit moves the counter, the new count is masked to 12 bits, not clamped.
- **RISC-V misaligned-access emulation** (`arch/riscv/kernel/traps_misaligned.c`):
  - instruction fetch (`get_insn`) and length;
  - the mask/match chains that classify a trapping load or store;
  - the emulation of that access on the register frame, the FP register file and memory;
  - the vector handler;
  - the per-CPU speed probes, `unaligned_ctl` and the SBI trap delegation.
- **SMB client settings** (`fs/smb/client/cifs_debug.c`):
  - the `SecurityFlags` proc write with its MUST-flag normalisation;
  - the `cifsFYI` proc write;
  - the link-speed and compression-algorithm name tables.

Each module is described below.

- **State that the source updates in place** is a class.
  - `AmdMce.McaCpu` holds one CPU's MSRs, bank maps, block lists and log, and its copy of the three system-wide settings (`thresholding_irq_en` and the two interrupt vectors).
  - `RiscvMisaligned.Misaligned` holds the per-CPU speeds and the flags.
  - `CifsDebug.CifsSettings` holds `global_secflags` and `cifsFYI`.
- **The methods of these classes** are proved against pure specification functions. Lemmas then state what the source promises about those functions.
- **Register files and memory** are partial maps. A missing entry is a read that faults.
- **Calls into code outside the three files are parameters.** These are:
  - `setup_APIC_eilvt`, the allocators, `kstrtobool` and `kstrtouint`;
  - `insn_is_vector`, the inline-assembly probes and the SBI firmware calls.
- **Integer width** is stated where it matters:
  - MSR halves are `bv32`;
  - RISC-V registers are `bv64`, with XLEN chosen by `rv64`;
  - 32-bit C arithmetic is written out (`McaRegs.U32`, `AmdThreshold.ShowErrorCount`).

## Model

| member | source | states |
|---|---|---|
| McaRegs.ReadSafe | arch/x86/kernel/cpu/mce/amd.c:298 | `rdmsr_safe` fails exactly for a register absent from the map, else yields its halves |
| McaRegs.Write | arch/x86/kernel/cpu/mce/amd.c:326 | `wrmsr` changes only the addressed register, and a write to an absent register is dropped |
| SmcaCatalog.SmcaGetName | arch/x86/kernel/cpu/mce/amd.c:123-129 | the name is `None` exactly for the "no type" value, and otherwise has 1..14 characters (the bound `AmdNames.GetNameFitsBuffer` relies on) |
| SmcaCatalog.HwidMcatype | arch/x86/kernel/cpu/mce/amd.c:71 | `HWID_MCATYPE` is `hwid * 65536 + mcatype`, and the two fields can be read back from it |
| SmcaCatalog.FindFrom | arch/x86/kernel/cpu/mce/amd.c:339-348 | the scan returns the first entry at or after `from` whose key matches, or `None` when no later entry matches |
| SmcaCatalog.Find | arch/x86/kernel/cpu/mce/amd.c:339-348 | the first entry of `smca_hwid_mcatypes` with the key, or `None` exactly when no entry has it |
| SmcaCatalog.RowOfEntry | arch/x86/kernel/cpu/mce/amd.c:146-208 | reading the table backwards at a row's key gives that row |
| SmcaCatalog.CatalogKeysDistinct | arch/x86/kernel/cpu/mce/amd.c:146-208 | no two rows of `smca_hwid_mcatypes` share a key, so the first match is the only one |
| SmcaCatalog.CatalogClassifiesEachEntry | arch/x86/kernel/cpu/mce/amd.c:339-348 | every catalog key classifies as its own row's bank type |
| AmdThreshold.LimitChangeKeepsErrorsCounted | arch/x86/kernel/cpu/mce/amd.c:441-447 | after a limit change, the shifted counter minus the new preset equals the old counter minus the old preset (mod 2^12) |
| AmdThreshold.RestartLvtOff | arch/x86/kernel/cpu/mce/amd.c:455-461 | the LVT-offset rewrite of an init restart never changes the field, because validity means that it already holds the offset |
| AmdThreshold.RestartInterrupt | arch/x86/kernel/cpu/mce/amd.c:450-464 | the interrupt step changes only IntType, setting APIC exactly for a capable, enabled block |
| AmdThreshold.RestartResetsCounter | arch/x86/kernel/cpu/mce/amd.c:438-440 | at init or on overflow, the counter becomes `THRESHOLD_MAX - limit` and overflow is cleared |
| AmdThreshold.RestartAdjustsCounter | arch/x86/kernel/cpu/mce/amd.c:441-447 | a limit change moves the counter by `old_limit - limit`, masked to 12 bits |
| AmdThreshold.RestartKeepsCounter | arch/x86/kernel/cpu/mce/amd.c:438-447 | a plain reset without overflow leaves the counter alone |
| AmdThreshold.RestartInterruptType | arch/x86/kernel/cpu/mce/amd.c:450-467 | every restart sets COUNT_EN, and IntType is APIC exactly for a capable, enabled block |
| AmdThreshold.RestartKeepsOtherFields | arch/x86/kernel/cpu/mce/amd.c:438-467 | no field outside counter, overflow, IntType and COUNT_EN changes, and the LVT offset is kept |
| AmdThreshold.ShowErrorCountIsErrorsCounted | arch/x86/kernel/cpu/mce/amd.c:1029-1039 | while at most `limit` errors have been counted, `show_error_count`'s u32 difference is that number |
| AmdThreshold.PresetCountsNothing | arch/x86/kernel/cpu/mce/amd.c:1037-1038 | a counter just preset shows zero errors |
| AmdThreshold.ClampLimit | arch/x86/kernel/cpu/mce/amd.c:1013-1016 | the stored limit lies in 1..`THRESHOLD_MAX`, and is the parsed value when that is already in range |
| AmdThreshold.Reserve | arch/x86/kernel/cpu/mce/amd.c:484-500 | an existing reservation is returned unchanged; otherwise the candidate is taken exactly when `setup_APIC_eilvt` accepts it |
| AmdThreshold.ReserveIsSticky | arch/x86/kernel/cpu/mce/amd.c:484-491 | once reserved, an offset is never undone or replaced by a later call |
| AmdThreshold.DecodeEncodeMisc | arch/x86/kernel/cpu/mce/amd.c:438-468 | writing the high-word fields under their `MASK_*_HI` masks and reading them back gives the same fields |
| AmdThreshold.RestartHiFields | arch/x86/kernel/cpu/mce/amd.c:432-469 | the word a restart writes decodes to the restarted fields of the word it read |
| AmdThreshold.RestartBankEffect | arch/x86/kernel/cpu/mce/amd.c:423-470 | only the block's MSR changes and its low word is kept; a restart that races with bank removal (not init) changes nothing |
| AmdThreshold.RestartClearsOverflow | arch/x86/kernel/cpu/mce/amd.c:438-440 | after any restart that writes, the overflow bit is clear |
| AmdNames.DecimalRoundTrip | arch/x86/kernel/cpu/mce/amd.c:1121-1135 | the `%u` digits of a number read back as that number |
| AmdNames.U32DecimalLength | arch/x86/kernel/cpu/mce/amd.c:1121-1135 | an unsigned 32-bit value prints in at most ten digits |
| AmdNames.Bank4Name | arch/x86/kernel/cpu/mce/amd.c:358-375 | the three northbridge MSRs are named "dram", "ht_links" and "l3_cache"; any other MSR gets "" |
| AmdNames.GetNameFitsBuffer | arch/x86/kernel/cpu/mce/amd.c:1103-1138 | on SMCA parts every bank and block has a name shorter than `MAX_MCATYPE_NAME_LEN`, so `snprintf` never truncates |
| AmdNames.BlockNamesDistinct | arch/x86/kernel/cpu/mce/amd.c:1128-1135 | two different nonzero blocks outside the UMC naming get different names |
| AmdNames.LegacyNames | arch/x86/kernel/cpu/mce/amd.c:1103-1117 | on legacy parts only the six `th_names` banks are named, and bank 4's blocks are named by MSR |
| AmdBlocks.SmcaGetBlockAddress | arch/x86/kernel/cpu/mce/amd.c:528-538 | block 0 is MISC0; blocks 1..4 are MISCy for mapped banks and 0 otherwise |
| AmdBlocks.GetBlockAddress | arch/x86/kernel/cpu/mce/amd.c:540-566 | out-of-range banks/blocks give 0; otherwise the SMCA or legacy layout address |
| AmdBlocks.BlockAddressInLayout | arch/x86/kernel/cpu/mce/amd.c:540-566 | every nonzero address lies in the bank's layout, and a later block's address is above the previous one (no u32 wrap) |
| AmdBlocks.ProbesInLayout | arch/x86/kernel/cpu/mce/amd.c:691-711 | every address a walk visits lies in the bank's layout and rises step by step |
| AmdBlocks.ProbesIncrease | arch/x86/kernel/cpu/mce/amd.c:691-711 | a walk never visits a register twice |
| AmdBlocks.CandidatesAreUsable | arch/x86/kernel/cpu/mce/amd.c:701-706 | the blocks handed on are exactly the visited blocks that are valid, have a counter and are unlocked |
| AmdBlocks.InsertAfterHeadOrder | arch/x86/kernel/cpu/mce/amd.c:1183-1187 | `list_add` after the head keeps the first block as head and puts each later block right behind it |
| AmdBlocks.AllocWalkResult | arch/x86/kernel/cpu/mce/amd.c:1140-1215 | without an invalid block 0, the list holds the usable blocks in list order, or the walk ends in `-ENOMEM` at the first failing allocation |
| AmdBlocks.AllocateBankResult | arch/x86/kernel/cpu/mce/amd.c:1140-1215 | nothing for an invalid block 0; otherwise the same usable blocks as the init loop, head first and the rest newest first |
| AmdBlocks.ListOrderPermutes | arch/x86/kernel/cpu/mce/amd.c:1183-1187 | the list holds each created block exactly once; only the order differs |
| AmdBlocks.AllocatedBlocksUsable | arch/x86/kernel/cpu/mce/amd.c:1165-1181 | every created block comes from a usable register of its bank, with limit `THRESHOLD_MAX` and the bank's interrupt capability |
| AmdBlocks.InvalidBlockZeroDifference | arch/x86/kernel/cpu/mce/amd.c:1154-1159 | with an invalid block 0 pointing to a usable block 1, the init loop programs block 1 and the allocator creates nothing |
| AmdErrors.UsableAddressCases | arch/x86/kernel/cpu/mce/amd.c:770-786 | the legacy northbridge bank decides by its error code alone; every other bank decides by POISON alone |
| AmdErrors.MemoryErrorBanks | arch/x86/kernel/cpu/mce/amd.c:721-748 | a memory error is reported only by bank 4 (legacy) or a UMC bank (SMCA) |
| AmdErrors.FilterMceScope | arch/x86/kernel/cpu/mce/amd.c:615-633 | nothing is dropped above family 0x17, and below it nothing but bank-4 records |
| AmdErrors.FilterKeepsLegacyMemoryErrors | arch/x86/kernel/cpu/mce/amd.c:615-633 | the filter never drops a legacy DRAM ECC error |
| AmdLog.LogErrorBankEffect | arch/x86/kernel/cpu/mce/amd.c:831-848 | the result is true exactly for a valid deferred error; a valid error is logged once and its status cleared; an invalid one changes nothing |
| AmdLog.LogDeferredBankScenarios | arch/x86/kernel/cpu/mce/amd.c:866-888 | the three documented scenarios: MCA_STATUS logged alone (DESTAT cleared on SMCA), else DESTAT checked; no valid error is left in either register |
| AmdLog.ThresholdMiscTruncated | arch/x86/kernel/cpu/mce/amd.c:850 | as written, a threshold event logs misc with its high word lost (a concrete register file gives misc 0) |
| AmdLog.ThresholdingLogsFullMisc | arch/x86/kernel/cpu/mce/amd.c:899-902 | with a 64-bit misc the record carries the block's MISC register exactly |
| AmdLog.LogAndResetQuiets | arch/x86/kernel/cpu/mce/amd.c:904-925 | afterwards the block has no pending overflow, and no quiet register gains one |
| AmdLog.ResetBlocksQuiets | arch/x86/kernel/cpu/mce/amd.c:953-958 | after a bank's list walk none of its blocks has a pending overflow |
| AmdLog.ScanBanksQuiets | arch/x86/kernel/cpu/mce/amd.c:931-961 | after the threshold interrupt no block of a bank in `bank_map` has its overflow bit set |
| AmdMce.ConfigHiBits | arch/x86/kernel/cpu/mce/amd.c:298-327 | MCAX is set; DeferredIntType becomes APIC exactly when supported and unset; no other bit changes |
| AmdMce.MiscBanksEnableBlocks | arch/x86/kernel/cpu/mce/amd.c:267-287 | block addresses 1..4 of an SMCA bank are nonzero exactly for banks in `smca_misc_banks_map` |
| AmdMce.FindHwid | arch/x86/kernel/cpu/mce/amd.c:339-348 | the search loop returns the first catalog row holding the key, or none |
| AmdMce.ClassifyRecognises | arch/x86/kernel/cpu/mce/amd.c:330-348 | a bank gets the catalog type of its IPID key, or keeps its old type; `sysfs_id` is the prior count of its type, as a u8 |
| AmdMce.ClearedNotUsable | arch/x86/kernel/cpu/mce/amd.c:641-678 | a register whose CntP was cleared is taken by neither walk |
| AmdMce.ClearCntpAllWrite | arch/x86/kernel/cpu/mce/amd.c:660-675 | clearing CntP commutes with a write elsewhere and leaves that register alone |
| AmdMce.InitRestartArms | arch/x86/kernel/cpu/mce/amd.c:472-482 | an init restart of a fresh block presets its counter, clears overflow and enables counting, with APIC delivery when capable |
| AmdMce.InitArmAllEffect | arch/x86/kernel/cpu/mce/amd.c:691-711 | the init walk arms every usable visited block (or leaves it untouched when `prepare_threshold_block` bails out) and no other register changes |
| AmdMce.InitBankEffect | arch/x86/kernel/cpu/mce/amd.c:691-711 | the same, stated block by block for one bank |
| AmdMce.BankMapStep | arch/x86/kernel/cpu/mce/amd.c:577-578 | a visited block puts its bank in `bank_map` exactly when it is usable block 0 |
| AmdMce.WalkCovers | arch/x86/kernel/cpu/mce/amd.c:691-711 | a completed walk visited exactly the bank's probes |
| AmdMce.WalkEnd | arch/x86/kernel/cpu/mce/amd.c:692-697 | the walk ends at a zero address, a faulting read or after `NR_BLOCKS` |
| AmdMce.DefErrLoOffset | arch/x86/kernel/cpu/mce/amd.c:508-513 | the written word names the nonzero offset requested from the APIC (2 when firmware left 0) |
| AmdMce.DefErrLoIntType | arch/x86/kernel/cpu/mce/amd.c:522-523 | on legacy parts the deferred interrupt type becomes APIC |
| AmdMce.DefErrLoKeepsOtherBits | arch/x86/kernel/cpu/mce/amd.c:502-526 | no bit outside the two fields changes |
| AmdMce.ProbesAtBlockZero | arch/x86/kernel/cpu/mce/amd.c:1241 | the allocator entered at MCA_MISC visits the bank's registers from block 0 |
| AmdMce.ProbesAtNext | arch/x86/kernel/cpu/mce/amd.c:1196-1201 | the allocator's step to the next block agrees with the init walk |
| AmdMce.RemovalEventsExact | arch/x86/kernel/cpu/mce/amd.c:1285-1297 | removal frees exactly the created banks and nothing else |
| AmdMce.ErrorCountShown | arch/x86/kernel/cpu/mce/amd.c:1029-1039 | `-ENODEV` exactly when the register cannot be read; otherwise the u32 count |
| AmdMce.LimitStoreKeepsErrorCount | arch/x86/kernel/cpu/mce/amd.c:1005-1027 | a limit store keeps the errors counted; an overflowed counter restarts and shows zero |
| AmdMce.InterruptEnableTakesEffect | arch/x86/kernel/cpu/mce/amd.c:982-1002 | an enable store makes IntType APIC exactly when enabled, without touching a counter that has not overflowed |
| AmdMce.McaCpu.SmcaSetMiscBanksMap | arch/x86/kernel/cpu/mce/amd.c:267-287 | the bank joins `smca_misc_banks_map` exactly when CONFIG reads with MCAX and MISC0 has a block pointer |
| AmdMce.McaCpu.SmcaConfigure | arch/x86/kernel/cpu/mce/amd.c:289-349 | MCA_CONFIG is written, `lsb_in_status` recorded, the misc map updated and the bank classified, nothing else |
| AmdMce.McaCpu.WriteMcaConfig | arch/x86/kernel/cpu/mce/amd.c:298-327 | the CONFIG write and `lsb_in_status`, or nothing when CONFIG faults |
| AmdMce.McaCpu.ClassifyBank | arch/x86/kernel/cpu/mce/amd.c:329-348 | a failing IPID read changes nothing; a match sets hwid, id and `sysfs_id` and bumps the type's u8 count |
| AmdMce.McaCpu.DisableErrThresholding | arch/x86/kernel/cpu/mce/amd.c:641-678 | CntP cleared on the erratum registers for the affected families; HWCR restored; nothing else changes |
| AmdMce.McaCpu.ThresholdRestartBank | arch/x86/kernel/cpu/mce/amd.c:423-470 | the register file becomes `RestartBank` of the old one |
| AmdMce.McaCpu.PrepareThresholdBlock | arch/x86/kernel/cpu/mce/amd.c:569-613 | block 0 joins `bank_map`; capable blocks reserve the LVT offset and enable the IRQ on success; the block is init-restarted unless the SMCA offset read fails |
| AmdMce.McaCpu.InitBlock | arch/x86/kernel/cpu/mce/amd.c:699-709 | invalid, counter-less or locked blocks are skipped; any other is prepared: the registers become `InitArm` of the block, block 0 joins `bank_map`, and the returned offset and `thresholding_irq_en` are `PrepareLvt` of the register file and the offset and flag before |
| AmdMce.McaCpu.InitBank | arch/x86/kernel/cpu/mce/amd.c:691-711 | the registers become `InitArmAll` over the walk, the bank joins `bank_map` exactly when its first usable block is block 0, and the returned offset and `thresholding_irq_en` are `WalkLvt` over the walk |
| AmdMce.McaCpu.InitWalk | arch/x86/kernel/cpu/mce/amd.c:691-711 | the loop's registers, `bank_map`, offset and `thresholding_irq_en` equal the walk's folds `InitArmAll` and `WalkLvt` |
| AmdMce.McaCpu.WalkStep | arch/x86/kernel/cpu/mce/amd.c:692-709 | one iteration: the next address and read, then `InitBlock`; the registers, `bank_map`, offset and IRQ flag stay the folds over the registers visited so far |
| AmdMce.McaCpu.FeatureInit | arch/x86/kernel/cpu/mce/amd.c:681-715 | the registers, `lsb_in_status`, `smca_misc_banks_map`, the classification and `bank_map` become `FeatureBanks` of the old state over all banks, starting with no offset, followed on SUCCOR parts by the MSR_CU_DEF_ERR write; `thresholding_irq_en` ends set exactly when it was set or an offset was reserved; the deferred-error handler is installed exactly when it was or, on SUCCOR parts, the APIC accepts the offset in the register the banks left; `bank_map` only gains banks below `mce_num_banks` |
| AmdMce.McaCpu.FeatureInitBanks | arch/x86/kernel/cpu/mce/amd.c:685-710 | after the bank loop, started with no offset, the state with the carried offset and `thresholding_irq_en` is `FeatureBanks` of the old state: bank by bank, configured (SMCA), errata-cleared, then walked |
| AmdMce.McaCpu.FeatureInitBank | arch/x86/kernel/cpu/mce/amd.c:689-709 | one bank: `smca_configure`, `disable_err_thresholding` on the type just found, then the block walk, which adds the bank to `bank_map` exactly when its first usable block is block 0 and carries the offset and IRQ flag through `WalkLvt` |
| AmdMce.FeatureBanks | arch/x86/kernel/cpu/mce/amd.c:685-710 | the bank loop only adds to `bank_map`, and only banks it has reached; a reserved offset is kept, and from no offset `thresholding_irq_en` ends set exactly when it was set or an offset was reserved |
| AmdMce.PrepareLvt | arch/x86/kernel/cpu/mce/amd.c:596-613 | for one block, a reserved offset is kept and never clears the IRQ flag; from no offset the flag ends set exactly when it was set or the reservation succeeded |
| AmdMce.WalkLvt | arch/x86/kernel/cpu/mce/amd.c:691-709 | the same two facts over a bank's whole block walk |
| AmdMce.McaCpu.DeferredErrorInterruptEnable | arch/x86/kernel/cpu/mce/amd.c:502-526 | nothing when MSR_CU_DEF_ERR faults; else the handler is installed when the APIC accepts, and the word is written |
| AmdMce.McaCpu.LogErrorBank | arch/x86/kernel/cpu/mce/amd.c:831-848 | the machine becomes `LogErrorBank` of the old one |
| AmdMce.McaCpu.LogErrorDeferred | arch/x86/kernel/cpu/mce/amd.c:850-866 | the machine becomes the corrected `LogErrorDeferred` of the old one |
| AmdMce.McaCpu.LogDeferredBank | arch/x86/kernel/cpu/mce/amd.c:877-888 | the machine becomes `LogDeferredBank` of the old one |
| AmdMce.McaCpu.DeferredErrorInterrupt | arch/x86/kernel/cpu/mce/amd.c:891-897 | every bank is scanned in order (`DeferredScan`) |
| AmdMce.McaCpu.LogAndResetBlock | arch/x86/kernel/cpu/mce/amd.c:904-925 | the machine becomes `LogAndResetBlock` of the old one |
| AmdMce.McaCpu.ResetBankBlocks | arch/x86/kernel/cpu/mce/amd.c:953-958 | the list is walked head first (`ResetBlocks`) |
| AmdMce.McaCpu.ThresholdInterrupt | arch/x86/kernel/cpu/mce/amd.c:931-961 | nothing while the banks are unpublished; else every mapped bank is scanned and no overflow is left pending |
| AmdMce.McaCpu.CreatedBanksExact | arch/x86/kernel/cpu/mce/amd.c:1345-1353 | a bank has its `threshold_bank` exactly when it is in `bank_map` and the loop reached it |
| AmdMce.McaCpu.CreatedBanksFailed | arch/x86/kernel/cpu/mce/amd.c:1348-1352 | the first failure stops the loop |
| AmdMce.McaCpu.AllocateThresholdBlocks | arch/x86/kernel/cpu/mce/amd.c:1140-1215 | the list built is `AllocWalk` of the probed registers |
| AmdMce.McaCpu.ThresholdCreateBank | arch/x86/kernel/cpu/mce/amd.c:1217-1254 | `-ENODEV`, `-ENOMEM`, `-EINVAL` or the allocator's error; otherwise the bank holds `AllocateBank` of its registers |
| AmdMce.McaCpu.RemoveBanks | arch/x86/kernel/cpu/mce/amd.c:1285-1297 | every created bank is removed in order, and the events are `RemovalEvents` |
| AmdMce.McaCpu.RemoveDevice | arch/x86/kernel/cpu/mce/amd.c:1299-1314 | the banks are unpublished before they are freed |
| AmdMce.McaCpu.CreateDevice | arch/x86/kernel/cpu/mce/amd.c:1327-1359 | nothing without thresholding or when already published, `-ENOMEM` on array failure, else `CreateBanks` |
| AmdMce.McaCpu.CreateBanks | arch/x86/kernel/cpu/mce/amd.c:1345-1358 | either the array is published (with the handler when the IRQ is enabled), or the first error is returned with the banks so far removed |
| AmdMce.McaCpu.StoreInterruptEnable | arch/x86/kernel/cpu/mce/amd.c:982-1002 | `-EINVAL` when not capable or unparsable; else the flag is "value nonzero" and the block restarted; a published bank array stays published |
| AmdMce.McaCpu.StoreThresholdLimit | arch/x86/kernel/cpu/mce/amd.c:1005-1027 | `-EINVAL` when unparsable; else the limit is clamped and the block restarted with the old limit; a published bank array stays published |
| RiscvInsn.InsnLenLowBits | arch/riscv/kernel/traps_misaligned.c:99 | the length depends only on the two low bits |
| RiscvInsn.RvcRs1s | arch/riscv/kernel/traps_misaligned.c:132 | `RVC_RS1S` always names one of x8..x15 |
| RiscvInsn.RvcRs2s | arch/riscv/kernel/traps_misaligned.c:133 | `RVC_RS2S` always names one of x8..x15 |
| RiscvInsn.RvcRs2 | arch/riscv/kernel/traps_misaligned.c:134 | `RVC_RS2` is a 5-bit register number |
| RiscvInsn.RvcLwImm | arch/riscv/kernel/traps_misaligned.c:117-119 | the C.LW offset is a multiple of 4 below 128 |
| RiscvInsn.RvcLdImm | arch/riscv/kernel/traps_misaligned.c:120-121 | the C.LD offset is a multiple of 8 below 256 |
| RiscvInsn.RvcLwspImm | arch/riscv/kernel/traps_misaligned.c:122-124 | the C.LWSP offset is a multiple of 4 below 256 |
| RiscvInsn.RvcLdspImm | arch/riscv/kernel/traps_misaligned.c:125-127 | the C.LDSP offset is a multiple of 8 below 512 |
| RiscvInsn.RvcSwspImm | arch/riscv/kernel/traps_misaligned.c:128-129 | the C.SWSP offset is a multiple of 4 below 256 |
| RiscvInsn.RvcSdspImm | arch/riscv/kernel/traps_misaligned.c:130-131 | the C.SDSP offset is a multiple of 8 below 512 |
| RiscvInsn.RegOffsetIsIndex | arch/riscv/kernel/traps_misaligned.c:136-146 | `REG_OFFSET` is the register number times `REGBYTES`, a slot-aligned offset inside the 32 slots |
| RiscvInsn.ClassifyLoad | arch/riscv/kernel/traps_misaligned.c:385-450 | the kind chosen satisfies its arm's guard (first match) |
| RiscvInsn.ClassifyStore | arch/riscv/kernel/traps_misaligned.c:498-552 | the kind chosen satisfies its arm's guard (first match) |
| RiscvInsn.ClassifyLoadComplete | arch/riscv/kernel/traps_misaligned.c:385-450 | every instruction an existing arm accepts is classified by that arm |
| RiscvInsn.ClassifyStoreComplete | arch/riscv/kernel/traps_misaligned.c:498-552 | every instruction an existing arm accepts is classified by that arm |
| RiscvInsn.SharedEncodings | arch/riscv/kernel/traps_misaligned.c:407-439 | C.LD/C.FLW and C.LDSP/C.FLWSP share encodings, and CONFIG_64BIT decides; C.LDSP/C.LWSP with rd = x0 are refused |
| RiscvInsn.ClassifiedLength | arch/riscv/kernel/traps_misaligned.c:99 | a kind is compressed exactly when the instruction is 16 bits long |
| RiscvInsn.LoadOpOf | arch/riscv/kernel/traps_misaligned.c:385-446 | an arm sets a length of 2, 4 or 8 and a shift below XLEN |
| RiscvInsn.LoadOpMeaning | arch/riscv/kernel/traps_misaligned.c:385-446 | each arm sets the ISA's width, an FP destination exactly for FP loads, a nonzero shift exactly for narrow signed loads, and the ISA's rd |
| RiscvInsn.StoreOpMeaning | arch/riscv/kernel/traps_misaligned.c:496-548 | each arm stores the ISA's width from the register the ISA names, from the FP file exactly for FP stores |
| RiscvMemory.RoundTrip | arch/riscv/kernel/traps_misaligned.c:555-561 | an n-byte store read back gives the n low bytes of the value |
| RiscvMemory.StoreFrame | arch/riscv/kernel/traps_misaligned.c:555-561 | a store changes no address outside its own bytes |
| RiscvMemory.StoreOutside | arch/riscv/kernel/traps_misaligned.c:555-561 | the same for every outside address at once |
| RiscvMemory.StoreDomain | arch/riscv/kernel/traps_misaligned.c:555-561 | a store makes its own bytes reachable and adds no other address |
| RiscvMemory.LoadFits | arch/riscv/kernel/traps_misaligned.c:455-461 | an n-byte load into a zeroed `reg_data` fits in n bytes |
| RiscvMemory.GetInsnMeaning | arch/riscv/kernel/traps_misaligned.c:288-324 | the fetched instruction has the length its low bits announce and is the little-endian value of that many bytes at `epc`; it fails exactly when they are unreadable |
| RiscvEmulate.LoadExtendMeaning | arch/riscv/kernel/traps_misaligned.c:463-464 | `(long)(x << shift) >> shift` is the ISA's sign extension for signed loads and zero extension for the others |
| RiscvEmulate.ExtendByWidth | arch/riscv/kernel/traps_misaligned.c:463-464 | the shift pair with the shift of a w-byte load is the ISA's sign or zero extension of a w-byte value |
| RiscvEmulate.AdvanceByLength | arch/riscv/kernel/traps_misaligned.c:470 | the new `epc` depends only on the instruction's length |
| RiscvEmulate.ScalarLoadRefused | arch/riscv/kernel/traps_misaligned.c:374-381 | emulation off, SIGBUS requested, an unreadable or unknown instruction gives -1 with the hart unchanged |
| RiscvEmulate.ScalarLoadEmulated | arch/riscv/kernel/traps_misaligned.c:362-473 | a known load from reachable memory returns 0 and leaves the hart as the ISA's load (`IsaLoad`) would |
| RiscvEmulate.ScalarLoadNoFpu | arch/riscv/kernel/traps_misaligned.c:452-453 | an FP load without FPU support gives -EOPNOTSUPP with `epc` left at 0 |
| RiscvEmulate.ScalarLoadFault | arch/riscv/kernel/traps_misaligned.c:455-458 | a load from unreachable memory comes from user mode and gives -1 with `epc` left at 0 |
| RiscvEmulate.LoadEffectIsIsa | arch/riscv/kernel/traps_misaligned.c:452-470 | the copy, register write and step past the instruction carry out the ISA's load once the arm's assignments match the ISA |
| RiscvEmulate.ArmIsIsa | arch/riscv/kernel/traps_misaligned.c:385-470 | every arm of the load chain, followed by the copy and register write, is the ISA's load of its kind |
| RiscvEmulate.ScalarStoreRefused | arch/riscv/kernel/traps_misaligned.c:485-492 | the store handler refuses in the same cases, leaving the hart unchanged |
| RiscvEmulate.ScalarStoreEmulated | arch/riscv/kernel/traps_misaligned.c:475-567 | a known store to reachable memory returns 0 and leaves the hart as the ISA's store (`IsaStore`) would |
| RiscvEmulate.ScalarStoreAbandoned | arch/riscv/kernel/traps_misaligned.c:554-559 | -EOPNOTSUPP without FPU, or -1 with memory untouched on a user fault, with `epc` left at 0 |
| RiscvEmulate.StoreSourceIsIsa | arch/riscv/kernel/traps_misaligned.c:494-548 | the arm reads the register the ISA names, from the cleared frame, so x0 reads as zero |
| RiscvEmulate.StoreSourceDirty | arch/riscv/kernel/traps_misaligned.c:203-244 | reading the source dirties the FP state exactly for an FP store with FPU support |
| RiscvEmulate.StoreEffectIsIsa | arch/riscv/kernel/traps_misaligned.c:554-564 | the copy and the step past the instruction carry out the ISA's store once the arm's assignments match the ISA |
| RiscvEmulate.StoreArmIsIsa | arch/riscv/kernel/traps_misaligned.c:496-564 | every arm of the store chain, followed by the copy, is the ISA's store of its kind |
| RiscvEmulate.VectorLoadMeaning | arch/riscv/kernel/traps_misaligned.c:336-354 | success exactly on a probe trap at a readable instruction (speed becomes unsupported, `epc` advances); otherwise -1 with nothing changed |
| RiscvMisaligned.Misaligned.HandleScalarLoad | arch/riscv/kernel/traps_misaligned.c:372 | the CPU's speed becomes EMULATED, and the result is `ScalarLoad` |
| RiscvMisaligned.Misaligned.HandleVectorLoad | arch/riscv/kernel/traps_misaligned.c:336-354 | the result and the CPU's vector speed are `VectorLoad` |
| RiscvMisaligned.Misaligned.HandleMisalignedLoad | arch/riscv/kernel/traps_misaligned.c:569-586 | vector instructions go to the vector handler when built in, others to the scalar handler when built in, else -1 |
| RiscvMisaligned.Misaligned.HandleMisalignedStore | arch/riscv/kernel/traps_misaligned.c:588-594 | the scalar store handler when built in, else -1 |
| RiscvMisaligned.Misaligned.AllCpusScalarEmulated | arch/riscv/kernel/traps_misaligned.c:648-658 | true exactly when every online CPU's speed is EMULATED |
| RiscvMisaligned.Misaligned.CheckScalarEmulated | arch/riscv/kernel/traps_misaligned.c:664-675 | the speed is EMULATED when the probe trapped, else unknown |
| RiscvMisaligned.Misaligned.OnlineCheck | arch/riscv/kernel/traps_misaligned.c:677-694 | -EINVAL exactly when `unaligned_ctl` is set and this CPU did not trap |
| RiscvMisaligned.Misaligned.ProbeScalarAll | arch/riscv/kernel/traps_misaligned.c:700 | each online CPU records its own probe result and others keep theirs |
| RiscvMisaligned.Misaligned.CheckAllCpus | arch/riscv/kernel/traps_misaligned.c:696-720 | true exactly when scalar emulation is built in and every online CPU trapped; `unaligned_ctl` is set then; with scalar emulation built in each online CPU records its own probe result and the others keep their speeds, and without it no speed changes |
| RiscvMisaligned.Misaligned.UnalignedCtlAvailable | arch/riscv/kernel/traps_misaligned.c:712-715 | returns `unaligned_ctl` |
| RiscvMisaligned.Misaligned.CheckVectorEmulated | arch/riscv/kernel/traps_misaligned.c:597-622 | the vector speed is unsupported when the probe trapped, else unknown |
| RiscvMisaligned.Misaligned.CheckVectorAllCpus | arch/riscv/kernel/traps_misaligned.c:624-645 | true exactly when vector emulation is built in and every online CPU's probe trapped; each online CPU records its own probe result then, and without vector emulation no vector speed changes |
| RiscvMisaligned.Misaligned.SbiSetup | arch/riscv/kernel/traps_misaligned.c:731-740 | -EINVAL exactly when the firmware refuses and traps are delegated |
| RiscvMisaligned.Misaligned.UnalignedAccessInit | arch/riscv/kernel/traps_misaligned.c:742-758 | traps count as delegated exactly when SBI is built in and every online CPU accepted |
| RiscvMisaligned.Misaligned.OnlineInit | arch/riscv/kernel/traps_misaligned.c:769-778 | the SBI setup, then only if it passed the scalar probe; either refusal is returned, and the CPU's speed becomes its probe result exactly when the SBI setup passed and scalar emulation is built in |
| RiscvMisaligned.Misaligned.CanDelegate | arch/riscv/kernel/traps_misaligned.c:780-789 | true exactly when traps are delegated or every online CPU is EMULATED |
| CifsDebug.MustFlags | fs/smb/client/cifs_debug.c:1082-1095 | the MUST_SIGN/MUST_SEAL bits of the input are kept, and flags holding no complete MUST mask are unchanged |
| CifsDebug.MustFlagsPriority | fs/smb/client/cifs_debug.c:1087-1094 | KRB5 > NTLMSSP > NTLMV2: the first MUST mask fully present is the only authentication bits left, and the sign/seal bits are exactly the input's |
| CifsDebug.MustFlagsIdempotent | fs/smb/client/cifs_debug.c:1082-1095 | normalising twice is normalising once |
| CifsDebug.AcceptFlags | fs/smb/client/cifs_debug.c:1146-1154 | a MUST_SIGN bit in the installed value implies MAY_SIGN, and the input's sign/seal bits are present |
| CifsDebug.AcceptFlagsInMask | fs/smb/client/cifs_debug.c:1135-1154 | an accepted value is nonzero and inside `CIFSSEC_MASK` |
| CifsDebug.CString | fs/smb/client/cifs_debug.c:1114 | the parsed string is the prefix before the first NUL, and holds no NUL |
| CifsDebug.FlagsString | fs/smb/client/cifs_debug.c:1108-1111 | the 12-byte buffer holds the `count` user bytes followed by NULs |
| CifsDebug.FlagsStringTerminated | fs/smb/client/cifs_debug.c:1105-1111 | the string the parsers see ends within the `count` copied bytes |
| CifsDebug.SecurityFlagsWrite | fs/smb/client/cifs_debug.c:1097-1159 | a write returns `count` or a negative error, and on error `global_secflags` is unchanged |
| CifsDebug.SecurityFlagsWriteCases | fs/smb/client/cifs_debug.c:1105-1146 | bad count or zero/out-of-mask value gives -EINVAL, a fault -EFAULT, a short boolean MAX/DEF, a short non-digit -EINVAL, and a parse error its code |
| CifsDebug.SecurityFlagsWriteInMask | fs/smb/client/cifs_debug.c:1097-1159 | every write leaves `global_secflags` inside `CIFSSEC_MASK` or at `CIFSSEC_MAX`/`CIFSSEC_DEF`; when those two lie inside the mask (`CONFIG_CIFS_UPCALL`), a value inside the mask stays inside it |
| CifsDebug.FyiWrite | fs/smb/client/cifs_debug.c:945-963 | a write returns `count` with `cifsFYI` in 0..9, or a negative error with it unchanged |
| CifsDebug.FyiWriteCases | fs/smb/client/cifs_debug.c:952-962 | a fault gives -EFAULT; a boolean sets 0 or 1; '2'..'9' set their value; anything else gives -EINVAL |
| CifsDebug.SpeedName | fs/smb/client/cifs_debug.c:170-210 | the name is "Unknown" exactly when `bps/1000/1000` is not one of the 16 `SPEED_*` values |
| CifsDebug.MbpsName | fs/smb/client/cifs_debug.c:174-209 | the switch gives "Unknown" exactly for speeds outside the 16 |
| CifsDebug.MbpsNameRoundTrip | fs/smb/client/cifs_debug.c:174-209 | the 16 names are distinct: each reads back as its speed |
| CifsDebug.SpeedOfNameRoundTrip | fs/smb/client/cifs_debug.c:170-210 | a speed name is what `smb_speed_to_str` gives for its speed in b/s |
| CifsDebug.CompressionName | fs/smb/client/cifs_debug.c:283-299 | "invalid" exactly for identifiers above `SMB3_COMPRESS_PATTERN` |
| CifsDebug.CompressionNameRoundTrip | fs/smb/client/cifs_debug.c:283-299 | the five names are distinct and read back as their identifiers |
| CifsDebug.CifsSettings.constructor | fs/smb/client/cifs_debug.c:1097-1159 | the settings start at `CIFSSEC_DEF` and 0, with masks of either configuration, and satisfy the invariant the writes keep |
| CifsDebug.CifsSettings.HandleMustFlags | fs/smb/client/cifs_debug.c:1082-1095 | the in-place rewrite computes `MustFlags` |
| CifsDebug.CifsSettings.SecurityFlagsProcWrite | fs/smb/client/cifs_debug.c:1097-1159 | the return value and new `global_secflags` are `SecurityFlagsWrite`, and the mask invariant is kept |
| CifsDebug.CifsSettings.FyiProcWrite | fs/smb/client/cifs_debug.c:945-963 | the return value and new `cifsFYI` are `FyiWrite`, and `cifsFYI` stays in 0..9 |

## Left out

- I/O and tracing: `pr_*`, `WARN`, `cifs_dbg`, `perf_sw_event`, trace points and IRQ statistics are not modelled.
- AMD foreign services are parameters or recorded effects:
  - `setup_APIC_eilvt` is a set of accepted (offset, vector) pairs;
  - the allocators are failure sets;
  - `mce_log` appends to a log;
  - `boot_cpu_data` family and model are constants.
- `mce_prep_record`, `rdtsc` and `smca_extract_err_addr` are not modelled. A record keeps only bank, status, addr, misc, IPID and syndrome.
- The MSR addresses of the SMCA and legacy layouts come from headers outside amd.c. They follow AMD's documented layout: legacy `0x400 + 4*bank`; SMCA `0xC0002000 + 0x10*bank`, with MISC1..4 at `+0xA`.
- The SYND1/SYND2 registers are not modelled.
- sysfs and kobject lifetimes are not modelled: `kobject_init_and_add`, uevents, `kobject_put`, and the mutation of `default_attrs`. Only names, block lists and the clear-then-free order are kept.
- Cross-CPU calls (`smp_call_function_single`, `rdmsr_on_cpu`) run as direct calls on the block's CPU. CPU hotplug concurrency is not modelled.
- AmdMce.McaCpu: the model is a single-CPU view. `thresholding_irq_en`, `deferred_error_int_vector` and `mce_threshold_vector` are system-wide in the source. Here each `McaCpu` object holds its own copy (`thresholdingIrqEn`, `deferredHandlerInstalled`, `thresholdHandlerInstalled`). The constructor starts them at the values earlier CPUs left, but a change made through one object is not seen by the others.
- AmdNames.GetName: a legacy bank beyond the six `th_names` entries gets no name (`None`), because the source would index past the table.
- AmdThreshold: `threshold_limit` is kept in 1..`THRESHOLD_MAX` (the only values the stores can produce), although its type is `u16`.
- RiscvEmulate.Advance: `epc + INSN_LEN` wraps at 2^64 for both XLENs; on a 32-bit kernel the source wraps at 2^32, which only matters for an instruction ending at the top of the 32-bit address space.
- `badaddr` is used as an unbounded address, so accesses that wrap around the top of the address space are not modelled.
- Kernel-mode traps (`memcpy`, the plain instruction read) are assumed to touch reachable memory. This is a precondition of `RiscvEmulate.ScalarLoad`/`ScalarStore`.
- User copies are all-or-nothing: a partial `copy_to_user` write before a fault, and readable-but-not-writable memory, are not modelled.
- `get_user`'s sign extension of the fetched parcels is not modelled. The source masks the low parcel and the compressed instruction to 16 bits. It does not mask the high parcel or the aligned 32-bit read, but no handler reads bits above 31, so the behaviour is the same.
- Floating-point registers are opaque bit storage. NaN-boxing by `put_f32_reg` and the FP arithmetic helpers are not modelled; a single-precision value is the low 32 bits.
- The inline-assembly probes of `check_unaligned_access_emulated` and `check_vector_unaligned_access_emulated` are a `trapped` parameter, and their trap handling is applied as its effect on the speeds.
- `insn_is_vector` is a constant oracle.
- `schedule_on_each_cpu`/`on_each_cpu` are loops over the online CPUs.
- `sbi_fwft_set` and `sbi_fwft_set_online_cpus` results are parameters.
- `kernel_vector_begin` and the vector instruction itself are not modelled.
- The unused `IMM_I`, `IMM_S`, `GET_PRECISION` and `GET_RM` macros are not modelled.
- The `CIFSSEC_*` masks come from cifsglob.h, outside cifs_debug.c, and are parameters (`SecMasks`). Properties that need their shape assume `MasksWellFormed`, which holds with and without `CONFIG_CIFS_UPCALL`:
  - the MUST masks are nonempty;
  - the authentication and sign/seal MUST masks are disjoint;
  - MAY_SIGN lies inside `CIFSSEC_MASK`.
- CifsDebug.SecurityFlagsWriteInMask: "stays inside `CIFSSEC_MASK`" is promised only when `CIFSSEC_MAX` and `CIFSSEC_DEF` lie inside the mask, which is the `CONFIG_CIFS_UPCALL` configuration. Without it, `CIFSSEC_MAX` includes `CIFSSEC_MUST_KRB5`, which `CIFSSEC_MASK` lacks, so a boolean write of true installs a value outside the mask. `CifsSettings.Valid` therefore allows `CIFSSEC_MAX` and `CIFSSEC_DEF` as well as values inside the mask.
- An `unsigned int` flag word is a set of bit positions, with 0 being the empty set.
- `kstrtobool` and `kstrtouint` are parameters of `CifsSettings`. `kstrtouint`'s result is a value, `-EINVAL` or `-ERANGE`.
- A user buffer that faults is `None`. A partial copy before the fault is not modelled, because the handler then returns without using the buffer.
- The `SPEED_*` values are their own Mb/s numbers, from the ethtool header.
- The `SMB3_COMPRESS_*` identifiers are those of section 2.2.3.1.3 of [MS-SMB2]. `__le16` is compared as stored on both sides, so byte order does not matter.
- All other seq_file/proc output in cifs_debug.c is not modelled: the debug data, open files, statistics and the stats reset.

## Findings

| source | as written | input that shows it | evidently intended | confidence | as-written member | corrected member |
|---|---|---|---|---|---|---|
| arch/x86/kernel/cpu/mce/amd.c:850 | `_log_error_deferred(unsigned int bank, u32 misc)` takes a `u32`, but `log_error_thresholding` passes the 64-bit `((u64)high << 32) \| low`, so the logged misc loses the high word (overflow bit and error count) | legacy bank 0 with a valid error in MCA_STATUS and an overflowed block whose MISC low word is 0: the record's misc is 0 | the record carries the full 64-bit MISC value | not executed; high | AmdLog.ThresholdMiscTruncated | AmdLog.ThresholdingLogsFullMisc |

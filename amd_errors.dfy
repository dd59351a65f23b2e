/**
 * The classification of a logged machine-check record that the AMD code
 * offers the rest of the MCE core: whether it is a DRAM ECC error
 * (`amd_mce_is_memory_error`), whether its address may be acted on
 * (`amd_mce_usable_address`), and which records are filtered out
 * (`amd_filter_mce`).  A record is its bank, its status and the type of its
 * bank as `smca_get_bank_type` reports it (`None` for an unknown bank).
 */
module AmdErrors {
  import opened Wrappers
  import opened McaRegs
  import opened SmcaCatalog

  /** `legacy_mce_is_memory_error`: DRAM ECC errors appear in bank 4 with extended error code 8. */
  predicate LegacyIsMemoryError(bank: nat, status: bv64)
  {
    bank == 4 && Xec(status, 0x1F) == 8
  }

  /** `smca_mce_is_memory_error`: extended error code 0 in a unified memory controller bank. */
  predicate SmcaIsMemoryError(bankType: Option<BankType>, status: bv64)
  {
    Xec(status, 0x3F) == 0 && bankType in {Some(UMC), Some(UMC_V2)}
  }

  /** `amd_mce_is_memory_error`. */
  predicate IsMemoryError(smca: bool, bankType: Option<BankType>, bank: nat, status: bv64)
  {
    if smca then SmcaIsMemoryError(bankType, status) else LegacyIsMemoryError(bank, status)
  }

  /**
   * `amd_mce_usable_address`: on a legacy part a northbridge DRAM ECC error
   * has a usable address and any other bank-4 error has none; everywhere
   * else the POISON bit decides.
   */
  predicate UsableAddress(smca: bool, bank: nat, status: bv64)
  {
    if !smca && LegacyIsMemoryError(bank, status) then true
    else if !smca && bank == 4 then false
    else status & MCI_STATUS_POISON != 0
  }

  /**
   * The cases of `amd_mce_usable_address` as its comment lists them: the
   * legacy northbridge bank decides by its error code alone (bit 43 is not
   * poison there), every other bank by the POISON bit alone — SMCA memory
   * controller errors included.
   */
  lemma UsableAddressCases(smca: bool, bankType: Option<BankType>, bank: nat, status: bv64)
    ensures !smca && bank == 4 ==> (UsableAddress(smca, bank, status) <==> IsMemoryError(smca, bankType, bank, status))
    ensures !smca && bank == 4 ==> UsableAddress(smca, bank, status) == UsableAddress(smca, bank, status ^ MCI_STATUS_POISON)
    ensures smca || bank != 4 ==> (UsableAddress(smca, bank, status) <==> status & MCI_STATUS_POISON != 0)
  {
    assert Xec(status ^ MCI_STATUS_POISON, 0x1F) == Xec(status, 0x1F);
  }

  /** A memory error on a legacy part is only ever reported by bank 4; on SMCA parts only by a UMC bank. */
  lemma MemoryErrorBanks(smca: bool, bankType: Option<BankType>, bank: nat, status: bv64)
    requires IsMemoryError(smca, bankType, bank, status)
    ensures !smca ==> bank == 4
    ensures smca ==> bankType == Some(UMC) || bankType == Some(UMC_V2)
  {
  }

  /**
   * `amd_filter_mce`: instruction-fetch bank errors with code 10 on family
   * 0x17 models 0x10..0x2F (erratum 1114), and northbridge GART TLB errors
   * (bank 4, code 5) before family 0x17, are dropped.
   */
  predicate FilterMce(family: nat, model: nat, bankType: Option<BankType>, bank: nat, status: bv64)
  {
    if family == 0x17 && 0x10 <= model <= 0x2F && bankType == Some(IF) && Xec(status, 0x3F) == 10 then true
    else if family < 0x17 && bank == 4 && Xec(status, 0x1F) == 5 then true
    else false
  }

  /**
   * The filter drops nothing on families above 0x17, and nothing but
   * bank-4 records on families below it.
   */
  lemma FilterMceScope(family: nat, model: nat, bankType: Option<BankType>, bank: nat, status: bv64)
    ensures family > 0x17 ==> !FilterMce(family, model, bankType, bank, status)
    ensures family < 0x17 ==> (FilterMce(family, model, bankType, bank, status) <==> bank == 4 && Xec(status, 0x1F) == 5)
    ensures family == 0x17 && FilterMce(family, model, bankType, bank, status) ==> bankType == Some(IF) && 0x10 <= model <= 0x2F
  {
  }

  /**
   * A GART TLB error and a DRAM ECC error are told apart: the filter never
   * drops a legacy memory error.
   */
  lemma FilterKeepsLegacyMemoryErrors(family: nat, model: nat, bankType: Option<BankType>, bank: nat, status: bv64)
    requires family < 0x17 && LegacyIsMemoryError(bank, status)
    ensures !FilterMce(family, model, bankType, bank, status)
  {
  }
}

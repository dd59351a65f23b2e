/**
 * The sysfs names of thresholding banks and blocks (`get_name`,
 * `bank4_names`).  The source formats into a shared 30-byte buffer with
 * `snprintf`; here every name is a fresh string, and `GetNameFitsBuffer`
 * shows that the buffer never truncates one.
 */
module AmdNames {
  import opened Wrappers
  import opened SmcaCatalog

  /** `MAX_MCATYPE_NAME_LEN`: the size of the buffer, terminating NUL included. */
  const MAX_MCATYPE_NAME_LEN: nat := 30

  /** The decimal digit of a value below ten. */
  function Digit(d: nat): (c: char)
    requires d < 10
    ensures '0' <= c <= '9'
  {
    "0123456789"[d]
  }

  /** The value of a decimal digit character. */
  function DigitValue(c: char): nat
    requires '0' <= c <= '9'
  {
    (c as int) - ('0' as int)
  }

  /** `%u`: the decimal digits of `n`, most significant first, no leading zero. */
  function Decimal(n: nat): (s: string)
    ensures 1 <= |s|
    ensures forall i :: 0 <= i < |s| ==> '0' <= s[i] <= '9'
    ensures |s| > 1 ==> s[0] != '0'
  {
    if n < 10 then [Digit(n)] else Decimal(n / 10) + [Digit(n % 10)]
  }

  /** Reading decimal digits back as a number. */
  function DecimalValue(s: string): nat
    requires forall i :: 0 <= i < |s| ==> '0' <= s[i] <= '9'
  {
    if s == [] then 0 else DecimalValue(s[..|s| - 1]) * 10 + DigitValue(s[|s| - 1])
  }

  lemma DigitRoundTrip(d: nat)
    requires d < 10
    ensures DigitValue(Digit(d)) == d
  {
    assert "0123456789"[d] as int == '0' as int + d;
  }

  /** `Decimal` prints a number that reads back as itself. */
  lemma {:induction false} DecimalRoundTrip(n: nat)
    ensures DecimalValue(Decimal(n)) == n
  {
    var s := Decimal(n);
    if n < 10 {
      DigitRoundTrip(n);
      assert s[..|s| - 1] == [];
    } else {
      DecimalRoundTrip(n / 10);
      DigitRoundTrip(n % 10);
      assert s[..|s| - 1] == Decimal(n / 10);
    }
  }

  /** A value below `10^k` prints in at most `k` digits (one digit at least, for zero). */
  lemma {:induction false} DecimalLength(n: nat, k: nat, bound: nat)
    requires 1 <= k && bound == Pow10(k) && n < bound
    ensures |Decimal(n)| <= k
    decreases k
  {
    if n >= 10 {
      assert Pow10(1) == 10;
      DecimalLength(n / 10, k - 1, Pow10(k - 1));
    }
  }

  function Pow10(k: nat): nat
  {
    if k == 0 then 1 else 10 * Pow10(k - 1)
  }

  /** An unsigned 32-bit value prints in at most ten digits. */
  lemma U32DecimalLength(n: nat)
    requires n < 0x1_0000_0000
    ensures |Decimal(n)| <= 10
  {
    assert Pow10(10) == 10_000_000_000 by {
      assert Pow10(5) == 100_000;
    }
    DecimalLength(n, 10, Pow10(10));
  }

  /** `th_names[]`: the bank names of the legacy layout, six of them. */
  const ThNames: seq<string> := [
    "load_store", "insn_fetch", "combined_unit", "decode_unit", "northbridge", "execution_unit"]

  /** `smca_umc_block_names[]`. */
  const UmcBlockNames: seq<string> := ["dram_ecc", "misc_umc"]

  /**
   * `bank4_names`: the blocks of the legacy northbridge bank are named by
   * their MSR; any other MSR gets the empty name (after a warning).
   */
  function Bank4Name(address: nat): (r: string)
    ensures address == 0x413 ==> r == "dram"
    ensures address == 0xC000_0408 ==> r == "ht_links"
    ensures address == 0xC000_0409 ==> r == "l3_cache"
    ensures address !in {0x413, 0xC000_0408, 0xC000_0409} ==> r == ""
  {
    if address == 0x413 then "dram"
    else if address == 0xC000_0408 then "ht_links"
    else if address == 0xC000_0409 then "l3_cache"
    else ""
  }

  /** The block of a name request: its index in the bank and its MSR. */
  datatype BlockRef = BlockRef(block: nat, address: nat)

  /**
   * What `get_name` reads of the per-CPU SMCA state for one bank: the bank's
   * type (`smca_get_bank_type`), how many banks of that type this CPU has,
   * and the bank's `sysfs_id` (a `u8`).
   */
  datatype BankNaming = BankNaming(bankType: Option<BankType>, typeCount: nat, sysfsId: nat)

  /**
   * `get_name` for a bank (`b == None`) or one of its blocks.  A legacy bank
   * beyond the six of `th_names` has no name (`None`): the source would
   * index past the table.
   */
  function GetName(smca: bool, naming: BankNaming, bank: nat, b: Option<BlockRef>): Option<string>
  {
    if !smca then
      if b.Some? && bank == 4 then Some(Bank4Name(b.value.address))
      else if bank < |ThNames| then Some(ThNames[bank])
      else None
    else if b.Some? && naming.bankType in {Some(UMC), Some(UMC_V2)} && b.value.block < |UmcBlockNames| then
      Some(UmcBlockNames[b.value.block])
    else if b.Some? && b.value.block != 0 then
      Some("th_block_" + Decimal(b.value.block))
    else if naming.bankType.None? then
      Some("th_bank_" + Decimal(bank))
    else if naming.typeCount == 1 then
      SmcaGetName(naming.bankType)
    else
      Some(SmcaGetName(naming.bankType).value + "_" + Decimal(naming.sysfsId))
  }

  /**
   * On an SMCA part every bank and block has a name, and for unsigned
   * indices and a `u8` sequence number it is shorter than the buffer:
   * `snprintf` never truncates.  Distinct blocks of a bank other than the
   * memory controller's first two have distinct names.
   */
  lemma {:induction false} GetNameFitsBuffer(naming: BankNaming, bank: nat, b: Option<BlockRef>)
    requires bank < 0x1_0000_0000 && naming.sysfsId < 0x100
    requires b.Some? ==> b.value.block < 0x1_0000_0000
    ensures GetName(true, naming, bank, b).Some?
    ensures |GetName(true, naming, bank, b).value| < MAX_MCATYPE_NAME_LEN
  {
    var r := GetName(true, naming, bank, b);
    if b.Some? {
      U32DecimalLength(b.value.block);
    }
    U32DecimalLength(bank);
    U32DecimalLength(naming.sysfsId);
  }

  /** Two nonzero blocks outside the UMC names get different names on an SMCA part. */
  lemma {:induction false} BlockNamesDistinct(naming: BankNaming, bank: nat, b1: BlockRef, b2: BlockRef)
    requires naming.bankType !in {Some(UMC), Some(UMC_V2)}
    requires b1.block != 0 && b2.block != 0 && b1.block != b2.block
    ensures GetName(true, naming, bank, Some(b1)) != GetName(true, naming, bank, Some(b2))
  {
    var p := "th_block_";
    var s1, s2 := p + Decimal(b1.block), p + Decimal(b2.block);
    DecimalRoundTrip(b1.block);
    DecimalRoundTrip(b2.block);
    assert s1[|p|..] == Decimal(b1.block);
    assert s2[|p|..] == Decimal(b2.block);
  }

  /**
   * On a legacy part only the first six banks have names; the blocks of the
   * northbridge bank are named by their MSR, and the SMCA state is not read.
   */
  lemma LegacyNames(naming: BankNaming, bank: nat, b: Option<BlockRef>)
    ensures GetName(false, naming, bank, b).Some? <==> bank < 6
    ensures b.Some? && bank == 4 ==> GetName(false, naming, bank, b) == Some(Bank4Name(b.value.address))
    ensures GetName(false, naming, bank, b) == GetName(false, BankNaming(None, 0, 0), bank, b)
  {
  }
}

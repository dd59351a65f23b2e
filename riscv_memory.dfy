/**
 * The memory the RISC-V misaligned-access handler reads and writes: a
 * partial map from byte addresses to bytes (an address outside the map is
 * one a user-space access faults on), little-endian loads and stores of
 * 1 to 8 bytes, and `get_insn`, which fetches the trapping instruction one
 * 16- or 32-bit parcel at a time.
 */
module RiscvMemory {
  import opened Wrappers
  import opened RiscvInsn

  /** A byte, kept in a 64-bit word so that bytes and registers mix without casts. */
  type Byte = b: bv64 | b < 0x100

  /** The address space as the handler sees it: the bytes it can reach. */
  type Memory = map<int, Byte>

  /** The `n` bytes at `a`, `n <= 8`, are all reachable. */
  predicate Mapped(mem: Memory, a: int, n: nat)
  {
    (n >= 1 ==> a in mem) && (n >= 2 ==> a + 1 in mem) && (n >= 3 ==> a + 2 in mem) && (n >= 4 ==> a + 3 in mem)
    && (n >= 5 ==> a + 4 in mem) && (n >= 6 ==> a + 5 in mem) && (n >= 7 ==> a + 6 in mem) && (n >= 8 ==> a + 7 in mem)
  }

  /** Eight bytes assembled into a word, the first byte least significant. */
  function Pack(b0: bv64, b1: bv64, b2: bv64, b3: bv64, b4: bv64, b5: bv64, b6: bv64, b7: bv64): bv64
  {
    b0 | (b1 << 8) | (b2 << 16) | (b3 << 24) | (b4 << 32) | (b5 << 40) | (b6 << 48) | (b7 << 56)
  }

  /** Byte `k` of an `n`-byte access at `a`, or zero beyond the access. */
  function Lane(mem: Memory, a: int, k: nat, n: nat): Byte
    requires k < n ==> a + k in mem
  {
    if k < n then mem[a + k] else 0
  }

  /**
   * The `n` bytes at `a` as a little-endian unsigned number: what
   * `copy_from_user` or `memcpy` into a zeroed `union reg_data` leaves in
   * `data_ulong`/`data_u64` on a little-endian hart.
   */
  function LoadLE(mem: Memory, a: int, n: nat): bv64
    requires n <= 8 && Mapped(mem, a, n)
  {
    Pack(Lane(mem, a, 0, n), Lane(mem, a, 1, n), Lane(mem, a, 2, n), Lane(mem, a, 3, n),
         Lane(mem, a, 4, n), Lane(mem, a, 5, n), Lane(mem, a, 6, n), Lane(mem, a, 7, n))
  }

  /** The low byte of a word. */
  function Lo8(x: bv64): Byte
  {
    x & 0xFF
  }

  /** The `n` low bytes of `v`, least significant first, written at `a`. */
  function StoreLE(mem: Memory, a: int, v: bv64, n: nat): Memory
    requires n == 2 || n == 4 || n == 8
  {
    var m2 := mem[a := Lo8(v)][a + 1 := Lo8(v >> 8)];
    if n == 2 then m2 else
    var m4 := m2[a + 2 := Lo8(v >> 16)][a + 3 := Lo8(v >> 24)];
    if n == 4 then m4 else
    m4[a + 4 := Lo8(v >> 32)][a + 5 := Lo8(v >> 40)][a + 6 := Lo8(v >> 48)][a + 7 := Lo8(v >> 56)]
  }

  /** The bits an `n`-byte access carries. */
  function LowMask(n: nat): bv64
    requires n == 2 || n == 4 || n == 8
  {
    if n == 2 then 0xFFFF else if n == 4 then 0xFFFF_FFFF else 0xFFFF_FFFF_FFFF_FFFF
  }

  lemma Pack2(v: bv64)
    ensures Pack(Lo8(v), Lo8(v >> 8), 0, 0, 0, 0, 0, 0) == v & 0xFFFF
  {
  }

  lemma Pack4(v: bv64)
    ensures Pack(Lo8(v), Lo8(v >> 8), Lo8(v >> 16), Lo8(v >> 24), 0, 0, 0, 0) == v & 0xFFFF_FFFF
  {
  }

  lemma Pack8(v: bv64)
    ensures Pack(Lo8(v), Lo8(v >> 8), Lo8(v >> 16), Lo8(v >> 24), Lo8(v >> 32), Lo8(v >> 40), Lo8(v >> 48), Lo8(v >> 56)) == v
  {
  }

  /** A 2-byte store read back gives the 16 low bits of the stored value. */
  lemma {:induction false} RoundTrip2(mem: Memory, a: int, v: bv64)
    ensures Mapped(StoreLE(mem, a, v, 2), a, 2)
    ensures LoadLE(StoreLE(mem, a, v, 2), a, 2) == v & LowMask(2)
  {
    var m := StoreLE(mem, a, v, 2);
    assert m[a] == Lo8(v) && m[a + 1] == Lo8(v >> 8);
    Pack2(v);
  }

  /** A 4-byte store read back gives the 32 low bits of the stored value. */
  lemma {:induction false} RoundTrip4(mem: Memory, a: int, v: bv64)
    ensures Mapped(StoreLE(mem, a, v, 4), a, 4)
    ensures LoadLE(StoreLE(mem, a, v, 4), a, 4) == v & LowMask(4)
  {
    var m := StoreLE(mem, a, v, 4);
    assert m[a] == Lo8(v) && m[a + 1] == Lo8(v >> 8) && m[a + 2] == Lo8(v >> 16) && m[a + 3] == Lo8(v >> 24);
    Pack4(v);
  }

  /** An 8-byte store read back gives the whole stored value. */
  lemma {:induction false} RoundTrip8(mem: Memory, a: int, v: bv64)
    ensures Mapped(StoreLE(mem, a, v, 8), a, 8)
    ensures LoadLE(StoreLE(mem, a, v, 8), a, 8) == v
  {
    var m := StoreLE(mem, a, v, 8);
    assert m[a] == Lo8(v) && m[a + 1] == Lo8(v >> 8) && m[a + 2] == Lo8(v >> 16) && m[a + 3] == Lo8(v >> 24);
    assert m[a + 4] == Lo8(v >> 32) && m[a + 5] == Lo8(v >> 40) && m[a + 6] == Lo8(v >> 48) && m[a + 7] == Lo8(v >> 56);
    Pack8(v);
  }

  /** A store of `n` bytes at `a` reads back as the `n` low bytes of the value, whatever `n`. */
  lemma {:induction false} RoundTrip(mem: Memory, a: int, v: bv64, n: nat)
    requires n == 2 || n == 4 || n == 8
    ensures Mapped(StoreLE(mem, a, v, n), a, n)
    ensures LoadLE(StoreLE(mem, a, v, n), a, n) == v & LowMask(n)
  {
    if n == 2 { RoundTrip2(mem, a, v); }
    else if n == 4 { RoundTrip4(mem, a, v); }
    else { RoundTrip8(mem, a, v); }
  }

  /** A store touches only its own bytes: every other address keeps its reachability and its value. */
  lemma StoreFrame(mem: Memory, a: int, v: bv64, n: nat, x: int)
    requires n == 2 || n == 4 || n == 8
    requires !(a <= x < a + n)
    ensures x in StoreLE(mem, a, v, n) <==> x in mem
    ensures x in mem ==> StoreLE(mem, a, v, n)[x] == mem[x]
  {
  }

  /** `StoreFrame` for every address outside the stored bytes at once. */
  lemma {:induction false} StoreOutside(mem: Memory, a: int, v: bv64, n: nat)
    requires n == 2 || n == 4 || n == 8
    ensures forall x | !(a <= x < a + n) ::
              (x in StoreLE(mem, a, v, n) <==> x in mem) && (x in mem ==> StoreLE(mem, a, v, n)[x] == mem[x])
  {
    forall x | !(a <= x < a + n)
      ensures (x in StoreLE(mem, a, v, n) <==> x in mem) && (x in mem ==> StoreLE(mem, a, v, n)[x] == mem[x])
    {
      StoreFrame(mem, a, v, n, x);
    }
  }

  /** A store makes its own bytes reachable and adds no other address. */
  lemma StoreDomain(mem: Memory, a: int, v: bv64, n: nat)
    requires n == 2 || n == 4 || n == 8
    ensures forall x :: x in StoreLE(mem, a, v, n) <==> x in mem || a <= x < a + n
  {
  }

  /**
   * `get_insn`: the instruction at `epc`.  At an address that is 2 mod 4
   * the low parcel is read first, and the high parcel only when the low
   * one announces a 32-bit instruction; at a 4-aligned address a whole
   * word is read and cut back to 16 bits when it holds a compressed
   * instruction.  `None` is the `-EFAULT` of a user read that faults.
   */
  function GetInsn(mem: Memory, epc: bv64): Option<Insn>
  {
    FetchAt(mem, epc as int, epc & 2 != 0)
  }

  /** The reads of `get_insn` at address `a`; `half` says that `a` is 2 mod 4. */
  function FetchAt(mem: Memory, a: int, half: bool): Option<Insn>
  {
    if half then
      if !Mapped(mem, a, 2) then None
      else
        var lo := LoadLE(mem, a, 2) & 0xFFFF;
        if lo & 3 != 3 then Some(lo)
        else if !Mapped(mem, a + 2, 2) then None
        else Some((LoadLE(mem, a + 2, 2) << 16) | lo)
    else
      if !Mapped(mem, a, 4) then None
      else
        var w := LoadLE(mem, a, 4);
        if w & 3 == 3 then Some(w) else Some(w & 0xFFFF)
  }

  /** The bytes `get_insn` needs: the instruction itself, or a whole word at a 4-aligned `epc`. */
  predicate Fetchable(mem: Memory, epc: bv64)
  {
    FetchableAt(mem, epc as int, epc & 2 != 0)
  }

  predicate FetchableAt(mem: Memory, a: int, half: bool)
  {
    if half then Mapped(mem, a, 2) && (LoadLE(mem, a, 2) & 3 == 3 ==> Mapped(mem, a + 2, 2))
    else Mapped(mem, a, 4)
  }

  /** Two reachable 2-byte runs side by side make a reachable 4-byte run. */
  lemma MappedHalves(mem: Memory, a: int)
    ensures Mapped(mem, a, 4) <==> Mapped(mem, a, 2) && Mapped(mem, a + 2, 2)
  {
  }

  /** Four bytes as two little-endian halves. */
  lemma PackHalves(b0: Byte, b1: Byte, b2: Byte, b3: Byte)
    ensures Pack(b0, b1, b2, b3, 0, 0, 0, 0) == (Pack(b2, b3, 0, 0, 0, 0, 0, 0) << 16) | Pack(b0, b1, 0, 0, 0, 0, 0, 0)
  {
  }

  /** The low half of four bytes. */
  lemma PackLowHalf(b0: Byte, b1: Byte, b2: Byte, b3: Byte)
    ensures Pack(b0, b1, b2, b3, 0, 0, 0, 0) & 0xFFFF == Pack(b0, b1, 0, 0, 0, 0, 0, 0)
  {
  }

  /** Two bytes fit in 16 bits. */
  lemma PackHalfBound(b0: Byte, b1: Byte)
    ensures Pack(b0, b1, 0, 0, 0, 0, 0, 0) & 0xFFFF == Pack(b0, b1, 0, 0, 0, 0, 0, 0)
  {
  }

  /** A 2-byte read in terms of its bytes. */
  lemma LoadBytes2(mem: Memory, a: int)
    requires Mapped(mem, a, 2)
    ensures LoadLE(mem, a, 2) == Pack(mem[a], mem[a + 1], 0, 0, 0, 0, 0, 0)
  {
  }

  /** A 4-byte read in terms of its bytes. */
  lemma LoadBytes4(mem: Memory, a: int)
    requires Mapped(mem, a, 4)
    ensures LoadLE(mem, a, 4) == Pack(mem[a], mem[a + 1], mem[a + 2], mem[a + 3], 0, 0, 0, 0)
  {
  }

  /** A 4-byte read is the high 2-byte read shifted over the low one. */
  lemma {:induction false} LoadHalves(mem: Memory, a: int)
    requires Mapped(mem, a, 4)
    ensures LoadLE(mem, a, 4) == (LoadLE(mem, a + 2, 2) << 16) | LoadLE(mem, a, 2)
  {
    LoadBytes4(mem, a);
    LoadBytes2(mem, a);
    LoadBytes2(mem, a + 2);
    assert a + 2 + 1 == a + 3;
    PackHalves(mem[a], mem[a + 1], mem[a + 2], mem[a + 3]);
  }

  /** The low 16 bits of a 4-byte read are the 2-byte read. */
  lemma {:induction false} LoadLowHalf(mem: Memory, a: int)
    requires Mapped(mem, a, 4)
    ensures LoadLE(mem, a, 4) & 0xFFFF == LoadLE(mem, a, 2)
  {
    LoadBytes4(mem, a);
    LoadBytes2(mem, a);
    PackLowHalf(mem[a], mem[a + 1], mem[a + 2], mem[a + 3]);
  }

  /** A 2-byte read fits in 16 bits. */
  lemma {:induction false} LoadHalfBound(mem: Memory, a: int)
    requires Mapped(mem, a, 2)
    ensures LoadLE(mem, a, 2) & 0xFFFF == LoadLE(mem, a, 2)
  {
    LoadBytes2(mem, a);
    PackHalfBound(mem[a], mem[a + 1]);
  }

  lemma PackWordBound(b0: Byte, b1: Byte, b2: Byte, b3: Byte)
    ensures Pack(b0, b1, b2, b3, 0, 0, 0, 0) & 0xFFFF_FFFF == Pack(b0, b1, b2, b3, 0, 0, 0, 0)
  {
  }

  /** An `n`-byte read fits in `n` bytes. */
  lemma {:induction false} LoadFits(mem: Memory, a: int, n: nat)
    requires (n == 2 || n == 4 || n == 8) && Mapped(mem, a, n)
    ensures LoadLE(mem, a, n) & LowMask(n) == LoadLE(mem, a, n)
  {
    if n == 2 {
      LoadHalfBound(mem, a);
    } else if n == 4 {
      LoadBytes4(mem, a);
      PackWordBound(mem[a], mem[a + 1], mem[a + 2], mem[a + 3]);
    }
  }

  /**
   * What `get_insn` returns is the instruction at `epc`: its length is the
   * one its low bits announce, and it is exactly the little-endian value of
   * that many bytes at `epc`, whichever way the parcels were read.  It
   * fails exactly when a byte it needs is unreachable.
   */
  lemma {:induction false} GetInsnMeaning(mem: Memory, epc: bv64)
    ensures GetInsn(mem, epc).Some? <==> Fetchable(mem, epc)
    ensures GetInsn(mem, epc).Some? ==>
              Mapped(mem, epc as int, InsnLen(GetInsn(mem, epc).value))
              && GetInsn(mem, epc).value == LoadLE(mem, epc as int, InsnLen(GetInsn(mem, epc).value))
  {
    if epc & 2 != 0 {
      FetchHalfMeaning(mem, epc as int);
    } else {
      FetchWordMeaning(mem, epc as int);
    }
  }

  /** `GetInsnMeaning` at an address that is 2 mod 4. */
  lemma {:induction false} FetchHalfMeaning(mem: Memory, a: int)
    ensures FetchAt(mem, a, true).Some? <==> FetchableAt(mem, a, true)
    ensures FetchAt(mem, a, true).Some? ==>
              Mapped(mem, a, InsnLen(FetchAt(mem, a, true).value))
              && FetchAt(mem, a, true).value == LoadLE(mem, a, InsnLen(FetchAt(mem, a, true).value))
  {
    if Mapped(mem, a, 2) {
      LoadHalfBound(mem, a);
      if LoadLE(mem, a, 2) & 3 == 3 && Mapped(mem, a + 2, 2) {
        MappedHalves(mem, a);
        LoadHalves(mem, a);
      }
    }
  }

  /** `GetInsnMeaning` at a 4-aligned address. */
  lemma {:induction false} FetchWordMeaning(mem: Memory, a: int)
    ensures FetchAt(mem, a, false).Some? <==> FetchableAt(mem, a, false)
    ensures FetchAt(mem, a, false).Some? ==>
              Mapped(mem, a, InsnLen(FetchAt(mem, a, false).value))
              && FetchAt(mem, a, false).value == LoadLE(mem, a, InsnLen(FetchAt(mem, a, false).value))
  {
    if Mapped(mem, a, 4) {
      var w := LoadLE(mem, a, 4);
      LoadLowHalf(mem, a);
      assert (w & 0xFFFF) & 3 == w & 3;
    }
  }
}

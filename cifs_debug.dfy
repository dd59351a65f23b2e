/**
 * The settings written through the SMB client's /proc/fs/cifs files
 * (`SecurityFlags` and `cifsFYI`) and the two name tables of its debug
 * output (link speeds and compression algorithms).
 *
 * The `CIFSSEC_*` masks and the kernel's `kstrtobool`/`kstrtouint`
 * parsers are defined outside cifs_debug.c, so they are parameters here:
 * a `SecMasks` value and two parser functions held by `CifsSettings`.
 * A user buffer that cannot be read is `None`.
 */
module CifsDebug {
  import opened Wrappers

  const EFAULT := 14
  const EINVAL := 22
  const ERANGE := 34

  /** Size of the zeroed buffer the `SecurityFlags` text is copied into. */
  const FLAGS_STRING_SIZE := 12

  /** A bit position of an `unsigned int`. */
  type Bit = b: nat | b < 32

  /** An `unsigned int` flag word, as the set of its one bits (0 is the empty set). */
  type Flags = set<Bit>

  /** The `CIFSSEC_*` masks used by the security-flag handlers. */
  datatype SecMasks = SecMasks(
    maySign: Flags,
    mustSign: Flags,
    mustSeal: Flags,
    mustKrb5: Flags,
    mustNtlmssp: Flags,
    mustNtlmv2: Flags,
    mask: Flags,
    max: Flags,
    def: Flags)

  /**
   * The shape the masks have with or without `CONFIG_CIFS_UPCALL`: each
   * MUST mask is non-empty, the three authentication MUST masks and the
   * signing/sealing MUST masks share no bit, and MAY_SIGN lies inside
   * `CIFSSEC_MASK`.  (Whether `CIFSSEC_MAX` and `CIFSSEC_DEF` lie inside
   * it depends on the configuration; see `SecurityFlagsWriteInMask`.)
   */
  predicate MasksWellFormed(m: SecMasks)
  {
    m.mustKrb5 != {} && m.mustNtlmssp != {} && m.mustNtlmv2 != {}
    && m.mustKrb5 !! m.mustNtlmssp + m.mustNtlmv2 + m.mustSign + m.mustSeal
    && m.mustNtlmssp !! m.mustNtlmv2 + m.mustSign + m.mustSeal
    && m.mustNtlmv2 !! m.mustSign + m.mustSeal
    && m.maySign <= m.mask
  }

  /**
   * A value `global_secflags` can hold: one inside `CIFSSEC_MASK`, or one
   * of the two a boolean write installs.
   */
  predicate Installable(m: SecMasks, flags: Flags)
  {
    flags <= m.mask || flags == m.max || flags == m.def
  }

  /** Every bit of `bits` is set in `flags`. */
  predicate Has(flags: Flags, bits: Flags)
  {
    bits <= flags
  }

  /** The signing and sealing MUST bits. */
  function SignSeal(m: SecMasks): Flags
  {
    m.mustSign + m.mustSeal
  }

  /**
   * `cifs_security_flags_handle_must_flags`: when all bits of a MUST
   * authentication mask are present (KRB5 first, then NTLMSSP, then
   * NTLMV2), the flags collapse to that mask; the signing and sealing
   * MUST bits of the input are put back in either case.
   */
  function MustFlags(m: SecMasks, flags: Flags): (r: Flags)
    ensures flags * SignSeal(m) <= r
    ensures !Has(flags, m.mustKrb5) && !Has(flags, m.mustNtlmssp) && !Has(flags, m.mustNtlmv2) ==> r == flags
  {
    var signflags := flags * SignSeal(m);
    var chosen :=
      if Has(flags, m.mustKrb5) then m.mustKrb5
      else if Has(flags, m.mustNtlmssp) then m.mustNtlmssp
      else if Has(flags, m.mustNtlmv2) then m.mustNtlmv2
      else flags;
    chosen + signflags
  }

  /**
   * With well-formed masks, the first MUST authentication mask present in
   * the input is the only authentication requirement left, and the
   * signing/sealing bits are exactly those of the input.
   */
  lemma {:induction false} MustFlagsPriority(m: SecMasks, flags: Flags)
    requires MasksWellFormed(m)
    ensures MustFlags(m, flags) * SignSeal(m) == flags * SignSeal(m)
    ensures Has(flags, m.mustKrb5) ==> MustFlags(m, flags) - SignSeal(m) == m.mustKrb5
    ensures !Has(flags, m.mustKrb5) && Has(flags, m.mustNtlmssp) ==> MustFlags(m, flags) - SignSeal(m) == m.mustNtlmssp
    ensures !Has(flags, m.mustKrb5) && !Has(flags, m.mustNtlmssp) && Has(flags, m.mustNtlmv2)
      ==> MustFlags(m, flags) - SignSeal(m) == m.mustNtlmv2
  {
  }

  /** Normalising twice is normalising once. */
  lemma {:induction false} MustFlagsIdempotent(m: SecMasks, flags: Flags)
    requires MasksWellFormed(m)
    ensures MustFlags(m, MustFlags(m, flags)) == MustFlags(m, flags)
  {
    var r := MustFlags(m, flags);
    MustFlagsPriority(m, flags);
    if Has(flags, m.mustKrb5) {
      assert Has(r, m.mustKrb5);
    } else if Has(flags, m.mustNtlmssp) {
      assert !Has(r, m.mustKrb5);
      assert Has(r, m.mustNtlmssp);
    } else if Has(flags, m.mustNtlmv2) {
      assert !Has(r, m.mustKrb5) && !Has(r, m.mustNtlmssp);
      assert Has(r, m.mustNtlmv2);
    }
  }

  /**
   * The value an accepted numeric write installs: the normalised flags,
   * with MAY_SIGN added when any MUST_SIGN bit is set.
   */
  function AcceptFlags(m: SecMasks, flags: Flags): (r: Flags)
    ensures r * m.mustSign != {} ==> Has(r, m.maySign)
    ensures Has(r, flags * SignSeal(m))
  {
    var g := MustFlags(m, flags);
    if g * m.mustSign != {} then g + m.maySign else g
  }

  /** An accepted value is non-zero and inside `CIFSSEC_MASK`, as the input was. */
  lemma {:induction false} AcceptFlagsInMask(m: SecMasks, flags: Flags)
    requires MasksWellFormed(m)
    requires flags != {} && flags <= m.mask
    ensures AcceptFlags(m, flags) != {}
    ensures AcceptFlags(m, flags) <= m.mask
  {
    MustFlagsPriority(m, flags);
  }

  /** The C string held by a buffer: the characters before its first NUL. */
  function CString(s: seq<char>): (r: seq<char>)
    ensures |r| <= |s| && r == s[..|r|]
    ensures forall i :: 0 <= i < |r| ==> r[i] != '\0'
    ensures |r| < |s| ==> s[|r|] == '\0'
  {
    if |s| == 0 || s[0] == '\0' then [] else [s[0]] + CString(s[1..])
  }

  /**
   * `flags_string` after the zeroing `memset` and the copy of `count`
   * user bytes.
   */
  function FlagsString(user: seq<char>, count: nat): (r: seq<char>)
    requires 1 <= count < FLAGS_STRING_SIZE && count <= |user|
    ensures |r| == FLAGS_STRING_SIZE && r[..count] == user[..count]
    ensures forall i :: count <= i < FLAGS_STRING_SIZE ==> r[i] == '\0'
  {
    user[..count] + seq(FLAGS_STRING_SIZE - count, _ => '\0')
  }

  /** The copied text is always NUL-terminated within the first `count` + 1 bytes. */
  lemma {:induction false} FlagsStringTerminated(user: seq<char>, count: nat)
    requires 1 <= count < FLAGS_STRING_SIZE && count <= |user|
    ensures |CString(FlagsString(user, count))| <= count
  {
    assert FlagsString(user, count)[count] == '\0';
  }

  /** The result of `kstrtouint`: a value, or its -EINVAL / -ERANGE failure. */
  datatype UintParse = Parsed(value: Flags) | NotANumber | OutOfRange

  function ParseError(p: UintParse): (rc: int)
    requires !p.Parsed?
    ensures rc < 0
  {
    if p.NotANumber? then -EINVAL else -ERANGE
  }

  predicate IsDigit(c: char)
  {
    '0' <= c <= '9'
  }

  /** The return value of a proc write and the setting it leaves behind. */
  datatype Written<T> = Written(ret: int, value: T)

  /**
   * `cifs_security_flags_proc_write`: the return value and the new
   * `global_secflags` for a write of `count` bytes from `user` (`None`
   * when the copy from user space faults).
   */
  function SecurityFlagsWrite(m: SecMasks, toBool: seq<char> -> Option<bool>, toUint: seq<char> -> UintParse,
                              secflags: Flags, user: Option<seq<char>>, count: nat): (r: Written<Flags>)
    requires user.Some? ==> count <= |user.value|
    ensures r.ret != count ==> r.ret < 0 && r.value == secflags
    ensures r.ret == count ==>
      r.value == m.max || r.value == m.def || (r.value * m.mustSign != {} ==> Has(r.value, m.maySign))
  {
    if count < 1 || count >= FLAGS_STRING_SIZE then Written(-EINVAL, secflags)
    else if user.None? then Written(-EFAULT, secflags)
    else
      var s := FlagsString(user.value, count);
      var b := toBool(CString(s));
      if count < 3 && b.Some? then Written(count, if b.value then m.max else m.def)
      else if count < 3 && !IsDigit(s[0]) then Written(-EINVAL, secflags)
      else
        match toUint(CString(s))
        case Parsed(flags) =>
          if flags == {} || !(flags <= m.mask) then Written(-EINVAL, secflags)
          else Written(count, AcceptFlags(m, flags))
        case p => Written(ParseError(p), secflags)
  }

  /**
   * Acceptance and rejection of a `SecurityFlags` write: bad lengths,
   * faults, non-boolean non-numeric short text, parse failures, zero and
   * out-of-mask values are refused; a short boolean installs MAX or DEF
   * and an accepted number its normalised form.
   */
  lemma {:induction false} SecurityFlagsWriteCases(m: SecMasks, toBool: seq<char> -> Option<bool>, toUint: seq<char> -> UintParse,
                                                  secflags: Flags, user: Option<seq<char>>, count: nat)
    requires user.Some? ==> count <= |user.value|
    ensures var r := SecurityFlagsWrite(m, toBool, toUint, secflags, user, count);
      && (count < 1 || count > 11 ==> r == Written(-EINVAL, secflags))
      && (1 <= count <= 11 && user.None? ==> r == Written(-EFAULT, secflags))
      && (1 <= count <= 11 && user.Some? ==>
            var text := CString(FlagsString(user.value, count));
            && (count < 3 && toBool(text).Some? ==>
                  r == Written(count, if toBool(text).value then m.max else m.def))
            && (count < 3 && toBool(text).None? && !IsDigit(user.value[0]) ==> r == Written(-EINVAL, secflags))
            && ((count >= 3 || toBool(text).None?) && (count >= 3 || IsDigit(user.value[0])) ==>
                  match toUint(text)
                  case Parsed(flags) =>
                    (flags == {} || !(flags <= m.mask) ==> r == Written(-EINVAL, secflags))
                    && (flags != {} && flags <= m.mask ==> r == Written(count, AcceptFlags(m, flags)))
                  case NotANumber => r == Written(-EINVAL, secflags)
                  case OutOfRange => r == Written(-ERANGE, secflags)))
  {
    if 1 <= count <= 11 && user.Some? {
      assert FlagsString(user.value, count)[0] == user.value[0];
    }
  }

  /**
   * A write leaves `global_secflags` inside `CIFSSEC_MASK` or at
   * `CIFSSEC_MAX`/`CIFSSEC_DEF`; when those two lie inside the mask (the
   * `CONFIG_CIFS_UPCALL` configuration), a write that starts inside the
   * mask stays inside it.
   */
  lemma {:induction false} SecurityFlagsWriteInMask(m: SecMasks, toBool: seq<char> -> Option<bool>, toUint: seq<char> -> UintParse,
                                                   secflags: Flags, user: Option<seq<char>>, count: nat)
    requires user.Some? ==> count <= |user.value|
    requires MasksWellFormed(m) && Installable(m, secflags)
    ensures Installable(m, SecurityFlagsWrite(m, toBool, toUint, secflags, user, count).value)
    ensures m.max + m.def <= m.mask && secflags <= m.mask ==> SecurityFlagsWrite(m, toBool, toUint, secflags, user, count).value <= m.mask
  {
    if 1 <= count < FLAGS_STRING_SIZE && user.Some? {
      var text := CString(FlagsString(user.value, count));
      match toUint(text)
      case Parsed(flags) =>
        if flags != {} && flags <= m.mask {
          AcceptFlagsInMask(m, flags);
        }
      case _ =>
    }
  }

  /**
   * `cifsFYI_proc_write`: `user` is the first byte of the user buffer
   * (`None` when `get_user` faults).
   */
  function FyiWrite(toBool: seq<char> -> Option<bool>, fyi: int, user: Option<char>, count: nat): (r: Written<int>)
    ensures r.ret != count ==> r.ret < 0 && r.value == fyi
    ensures r.ret == count ==> 0 <= r.value <= 9
  {
    if user.None? then Written(-EFAULT, fyi)
    else
      var c := user.value;
      var b := toBool(CString([c, '\0']));
      if b.Some? then Written(count, if b.value then 1 else 0)
      else if '1' < c <= '9' then Written(count, c as int - '0' as int)
      else Written(-EINVAL, fyi)
  }

  /**
   * A boolean character sets 0 or 1, a digit from 2 to 9 that is not a
   * boolean sets its value, anything else is refused.
   */
  lemma {:induction false} FyiWriteCases(toBool: seq<char> -> Option<bool>, fyi: int, user: Option<char>, count: nat)
    ensures user.None? ==> FyiWrite(toBool, fyi, user, count) == Written(-EFAULT, fyi)
    ensures user.Some? && user.value != '\0' ==>
      var r := FyiWrite(toBool, fyi, user, count);
      var b := toBool([user.value]);
      && (b.Some? ==> r == Written(count, if b.value then 1 else 0))
      && (b.None? && '2' <= user.value <= '9' ==> r == Written(count, user.value as int - '0' as int))
      && (b.None? && !('2' <= user.value <= '9') ==> r == Written(-EINVAL, fyi))
  {
    if user.Some? && user.value != '\0' {
      var c := [user.value, '\0'];
      assert c[1..] == ['\0'] && CString(['\0']) == [];
      assert CString(c) == [user.value];
    }
  }

  /** The `SPEED_*` link speeds, in Mb/s, that `smb_speed_to_str` names. */
  const KnownSpeeds: set<nat> :=
    {10, 100, 1000, 2500, 5000, 10000, 14000, 20000, 25000, 40000, 50000, 56000, 100000, 200000, 400000, 800000}

  /** `smb_speed_to_str`: the name of a link speed given in b/s. */
  function SpeedName(bps: nat): (r: string)
    ensures r == "Unknown" <==> bps / 1000 / 1000 !in KnownSpeeds
  {
    MbpsName(bps / 1000 / 1000)
  }

  /** The `switch` of `smb_speed_to_str` on the speed in Mb/s. */
  function MbpsName(mbps: nat): (r: string)
    ensures r == "Unknown" <==> mbps !in KnownSpeeds
  {
    if mbps == 10 then "10Mbps"
    else if mbps == 100 then "100Mbps"
    else if mbps == 1000 then "1Gbps"
    else if mbps == 2500 then "2.5Gbps"
    else if mbps == 5000 then "5Gbps"
    else if mbps == 10000 then "10Gbps"
    else if mbps == 14000 then "14Gbps"
    else if mbps == 20000 then "20Gbps"
    else if mbps == 25000 then "25Gbps"
    else if mbps == 40000 then "40Gbps"
    else if mbps == 50000 then "50Gbps"
    else if mbps == 56000 then "56Gbps"
    else if mbps == 100000 then "100Gbps"
    else if mbps == 200000 then "200Gbps"
    else if mbps == 400000 then "400Gbps"
    else if mbps == 800000 then "800Gbps"
    else "Unknown"
  }

  /** The speed in Mb/s a name stands for. */
  function SpeedOfName(name: string): (r: Option<nat>)
    ensures r.Some? ==> r.value in KnownSpeeds
  {
    if name == "10Mbps" then Some(10)
    else if name == "100Mbps" then Some(100)
    else if name == "1Gbps" then Some(1000)
    else if name == "2.5Gbps" then Some(2500)
    else if name == "5Gbps" then Some(5000)
    else if name == "10Gbps" then Some(10000)
    else if name == "14Gbps" then Some(14000)
    else if name == "20Gbps" then Some(20000)
    else if name == "25Gbps" then Some(25000)
    else if name == "40Gbps" then Some(40000)
    else if name == "50Gbps" then Some(50000)
    else if name == "56Gbps" then Some(56000)
    else if name == "100Gbps" then Some(100000)
    else if name == "200Gbps" then Some(200000)
    else if name == "400Gbps" then Some(400000)
    else if name == "800Gbps" then Some(800000)
    else None
  }

  /** A known speed's name reads back as that speed: the sixteen names are distinct. */
  lemma {:induction false} MbpsNameRoundTrip(mbps: nat)
    requires mbps in KnownSpeeds
    ensures SpeedOfName(MbpsName(mbps)) == Some(mbps)
  {
  }

  /** A name that stands for a speed is the one `SpeedName` gives for it. */
  lemma {:induction false} SpeedOfNameRoundTrip(name: string)
    requires SpeedOfName(name).Some?
    ensures SpeedName(SpeedOfName(name).value * 1000 * 1000) == name
  {
    var v := SpeedOfName(name).value;
    MbpsOfNameRoundTrip(name);
    assert v * 1000 * 1000 / 1000 / 1000 == v;
  }

  lemma {:induction false} MbpsOfNameRoundTrip(name: string)
    requires SpeedOfName(name).Some?
    ensures MbpsName(SpeedOfName(name).value) == name
  {
    if SpeedOfName(name).value < 20000 {
      SmallSpeedNames(name);
    } else {
      LargeSpeedNames(name);
    }
  }

  lemma {:induction false} SmallSpeedNames(name: string)
    requires SpeedOfName(name).Some? && SpeedOfName(name).value < 20000
    ensures MbpsName(SpeedOfName(name).value) == name
  {
  }

  lemma {:induction false} LargeSpeedNames(name: string)
    requires SpeedOfName(name).Some? && SpeedOfName(name).value >= 20000
    ensures MbpsName(SpeedOfName(name).value) == name
  {
  }

  /** The SMB3 compression algorithm identifiers, as in section 2.2.3.1.3 of [MS-SMB2]. */
  const SMB3_COMPRESS_NONE: bv16 := 0
  const SMB3_COMPRESS_LZNT1: bv16 := 1
  const SMB3_COMPRESS_LZ77: bv16 := 2
  const SMB3_COMPRESS_LZ77_HUFF: bv16 := 3
  const SMB3_COMPRESS_PATTERN: bv16 := 4

  /** The name of a compression algorithm identifier. */
  function CompressionName(alg: bv16): (r: string)
    ensures r == "invalid" <==> alg > SMB3_COMPRESS_PATTERN
  {
    if alg == SMB3_COMPRESS_NONE then "NONE"
    else if alg == SMB3_COMPRESS_LZNT1 then "LZNT1"
    else if alg == SMB3_COMPRESS_LZ77 then "LZ77"
    else if alg == SMB3_COMPRESS_LZ77_HUFF then "LZ77-Huffman"
    else if alg == SMB3_COMPRESS_PATTERN then "Pattern_V1"
    else "invalid"
  }

  /** The identifier a compression algorithm name stands for. */
  function CompressionOfName(name: string): (r: Option<bv16>)
    ensures r.Some? ==> r.value <= SMB3_COMPRESS_PATTERN
  {
    if name == "NONE" then Some(SMB3_COMPRESS_NONE)
    else if name == "LZNT1" then Some(SMB3_COMPRESS_LZNT1)
    else if name == "LZ77" then Some(SMB3_COMPRESS_LZ77)
    else if name == "LZ77-Huffman" then Some(SMB3_COMPRESS_LZ77_HUFF)
    else if name == "Pattern_V1" then Some(SMB3_COMPRESS_PATTERN)
    else None
  }

  /** Names of valid identifiers read back as those identifiers, and only they do. */
  lemma {:induction false} CompressionNameRoundTrip(alg: bv16, name: string)
    ensures alg <= SMB3_COMPRESS_PATTERN ==> CompressionOfName(CompressionName(alg)) == Some(alg)
    ensures CompressionOfName(name).Some? ==> CompressionName(CompressionOfName(name).value) == name
  {
  }

  /** The module-wide settings the two proc write handlers assign. */
  class CifsSettings {
    const masks: SecMasks
    /** `kstrtobool` applied to a C string. */
    const toBool: seq<char> -> Option<bool>
    /** `kstrtouint` with base 0 applied to a C string. */
    const toUint: seq<char> -> UintParse
    var globalSecflags: Flags
    var cifsFYI: int

    /** The settings stay inside their ranges. */
    ghost predicate Valid()
      reads this
    {
      MasksWellFormed(masks) && Installable(masks, globalSecflags) && 0 <= cifsFYI <= 9
    }

    /**
     * The settings at module load, with the masks of cifsglob.h:
     * `global_secflags` is `CIFSSEC_DEF` and `cifsFYI` is 0.
     */
    constructor(masks: SecMasks, toBool: seq<char> -> Option<bool>, toUint: seq<char> -> UintParse)
      requires MasksWellFormed(masks)
      ensures Valid()
      ensures this.masks == masks && this.toBool == toBool && this.toUint == toUint
      ensures globalSecflags == masks.def && cifsFYI == 0
    {
      this.masks := masks;
      this.toBool := toBool;
      this.toUint := toUint;
      globalSecflags := masks.def;
      cifsFYI := 0;
    }

    /** `cifs_security_flags_handle_must_flags`, rewriting `flags` step by step. */
    method HandleMustFlags(flags: Flags) returns (out: Flags)
      ensures out == MustFlags(masks, flags)
    {
      out := flags;
      var signflags := out * (masks.mustSign + masks.mustSeal);
      if masks.mustKrb5 <= out {
        out := masks.mustKrb5;
      } else if masks.mustNtlmssp <= out {
        out := masks.mustNtlmssp;
      } else if masks.mustNtlmv2 <= out {
        out := masks.mustNtlmv2;
      }
      out := out + signflags;
    }

    /** `cifs_security_flags_proc_write`. */
    method SecurityFlagsProcWrite(user: Option<seq<char>>, count: nat) returns (ret: int)
      requires user.Some? ==> count <= |user.value|
      modifies this`globalSecflags
      ensures Written(ret, globalSecflags) == SecurityFlagsWrite(masks, toBool, toUint, old(globalSecflags), user, count)
      ensures old(Valid()) ==> Valid()
    {
      if Valid() {
        SecurityFlagsWriteInMask(masks, toBool, toUint, globalSecflags, user, count);
      }
      if count < 1 || count > 11 {
        return -EINVAL;
      }
      if user.None? {
        return -EFAULT;
      }
      var flagsString := FlagsString(user.value, count);
      if count < 3 {
        var bv := toBool(CString(flagsString));
        if bv.Some? {
          globalSecflags := if bv.value then masks.max else masks.def;
          return count;
        } else if !IsDigit(flagsString[0]) {
          return -EINVAL;
        }
      }
      var parsed := toUint(CString(flagsString));
      if !parsed.Parsed? {
        return ParseError(parsed);
      }
      var flags := parsed.value;
      if flags == {} {
        return -EINVAL;
      }
      if !(flags <= masks.mask) {
        return -EINVAL;
      }
      flags := HandleMustFlags(flags);
      globalSecflags := flags;
      if globalSecflags * masks.mustSign != {} {
        globalSecflags := globalSecflags + masks.maySign;
      }
      return count;
    }

    /** `cifsFYI_proc_write`. */
    method FyiProcWrite(user: Option<char>, count: nat) returns (ret: int)
      modifies this`cifsFYI
      ensures Written(ret, cifsFYI) == FyiWrite(toBool, old(cifsFYI), user, count)
      ensures old(Valid()) ==> Valid()
    {
      if user.None? {
        return -EFAULT;
      }
      var c := [user.value, '\0'];
      var bv := toBool(CString(c));
      if bv.Some? {
        cifsFYI := if bv.value then 1 else 0;
      } else if '1' < c[0] <= '9' {
        cifsFYI := c[0] as int - '0' as int;
      } else {
        return -EINVAL;
      }
      return count;
    }
  }
}

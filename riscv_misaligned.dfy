/**
 * The kernel-wide and per-CPU state of arch/riscv/kernel/traps_misaligned.c:
 * the `unaligned_enabled` sysctl, the per-CPU scalar and vector
 * misaligned-access speeds, `unaligned_ctl` and
 * `misaligned_traps_delegated`, with the entry points that read and change
 * them.  The work done on the trapping hart is the pure `RiscvEmulate`
 * model; the methods here route a trap to it and record its effect on
 * the per-CPU speeds.
 */
module RiscvMisaligned {
  import opened Wrappers
  import opened RiscvInsn
  import opened RiscvMemory
  import opened RiscvEmulate

  /** `EINVAL`: a CPU brought online that does not match the others. */
  const EINVAL: int := 22

  /** The per-CPU scalar misaligned-access speed as `hwprobe` reports it. */
  datatype ScalarSpeed = ScalarUnknown | ScalarEmulated | ScalarSlow | ScalarFast | ScalarUnsupported

  /** Every CPU of `cpus` has its scalar misaligned accesses emulated. */
  predicate AllEmulated(speed: map<nat, ScalarSpeed>, cpus: seq<nat>)
  {
    forall i | 0 <= i < |cpus| :: cpus[i] in speed && speed[cpus[i]] == ScalarEmulated
  }

  /** Every CPU of `cpus` trapped on its probe. */
  predicate AllTrapped(cpus: seq<nat>, trapped: set<nat>)
  {
    forall i | 0 <= i < |cpus| :: cpus[i] in trapped
  }

  /** The scalar speed a CPU records after its probe: the trap handler sets it to emulated. */
  function ScalarProbeResult(trapped: bool): ScalarSpeed
  {
    if trapped then ScalarEmulated else ScalarUnknown
  }

  /** The vector speed a CPU records after its probe: the vector handler answers the probe trap with unsupported. */
  function VectorProbeResult(trapped: bool): VectorSpeed
  {
    if trapped then VectorUnsupported else VectorUnknown
  }

  class Misaligned {
    const cfg: Config
    /** `insn_is_vector`, which is not part of this model. */
    const isVector: Insn -> bool

    /** The `unaligned_enabled` sysctl. */
    var enabled: bool
    /** The online CPUs, in the order `for_each_online_cpu` visits them. */
    var online: seq<nat>
    /** The per-CPU `misaligned_access_speed` and `vector_misaligned_access`. */
    var speed: map<nat, ScalarSpeed>
    var vectorSpeed: map<nat, VectorSpeed>
    var unalignedCtl: bool
    var trapsDelegated: bool

    /**
     * Every online CPU has its per-CPU speeds; `unaligned_ctl` exists only
     * with scalar emulation built in, `misaligned_traps_delegated` is set
     * only through SBI.
     */
    ghost predicate Valid()
      reads this
    {
      (forall i | 0 <= i < |online| :: online[i] in speed && online[i] in vectorSpeed)
      && (unalignedCtl ==> cfg.scalarMisaligned)
      && (trapsDelegated ==> cfg.sbi)
    }

    /** Boot state: emulation enabled, nothing probed, nothing delegated. */
    constructor(cfg: Config, isVector: Insn -> bool, online: seq<nat>,
                speed: map<nat, ScalarSpeed>, vectorSpeed: map<nat, VectorSpeed>)
      requires forall i | 0 <= i < |online| :: online[i] in speed && online[i] in vectorSpeed
      ensures Valid()
      ensures this.cfg == cfg && this.isVector == isVector && this.online == online
      ensures this.speed == speed && this.vectorSpeed == vectorSpeed
      ensures enabled && !unalignedCtl && !trapsDelegated
    {
      this.cfg := cfg;
      this.isVector := isVector;
      this.online := online;
      this.speed := speed;
      this.vectorSpeed := vectorSpeed;
      enabled := true;
      unalignedCtl := false;
      trapsDelegated := false;
    }

    // -------------------------------------------------------------------
    // Trap handlers

    /**
     * `handle_scalar_misaligned_load` on `cpu`: it records that the CPU
     * traps on misaligned scalar accesses before anything else, then
     * emulates the load.
     */
    method HandleScalarLoad(cpu: nat, t: Trap, h: Hart) returns (ret: int, h': Hart)
      requires Valid() && WellFormed(h) && (!t.user ==> KernelLoadReachable(cfg, t, h))
      modifies this`speed
      ensures Valid()
      ensures speed == old(speed)[cpu := ScalarEmulated]
      ensures Outcome(ret, h') == ScalarLoad(cfg, enabled, t, h)
    {
      speed := speed[cpu := ScalarEmulated];
      var o := ScalarLoad(cfg, enabled, t, h);
      ret, h' := o.ret, o.hart;
    }

    /** `handle_vector_misaligned_load` on `cpu`. */
    method HandleVectorLoad(cpu: nat, h: Hart) returns (ret: int, h': Hart)
      requires Valid() && cpu in vectorSpeed && WellFormed(h)
      modifies this`vectorSpeed
      ensures Valid()
      ensures var o := VectorLoad(old(vectorSpeed)[cpu], h);
              ret == o.ret && h' == o.hart && vectorSpeed == old(vectorSpeed)[cpu := o.speed]
    {
      var o := VectorLoad(vectorSpeed[cpu], h);
      vectorSpeed := vectorSpeed[cpu := o.speed];
      ret, h' := o.ret, o.hart;
    }

    /**
     * `handle_misaligned_load`: with vector emulation built in, a vector
     * instruction goes to the vector handler (an unreadable instruction
     * fails at once); any other load goes to the scalar handler when it
     * is built in, and fails otherwise.
     */
    method HandleMisalignedLoad(cpu: nat, t: Trap, h: Hart) returns (ret: int, h': Hart)
      requires Valid() && cpu in vectorSpeed && WellFormed(h)
      requires !t.user ==> KernelLoadReachable(cfg, t, h)
      modifies this`speed, this`vectorSpeed
      ensures Valid()
      ensures cfg.vectorMisaligned && GetInsn(h.mem, Epc(h)).None? ==>
                ret == -1 && h' == h && unchanged(this)
      ensures cfg.vectorMisaligned && GetInsn(h.mem, Epc(h)).Some? && isVector(GetInsn(h.mem, Epc(h)).value) ==>
                var o := VectorLoad(old(vectorSpeed)[cpu], h);
                ret == o.ret && h' == o.hart && vectorSpeed == old(vectorSpeed)[cpu := o.speed] && speed == old(speed)
      ensures !(cfg.vectorMisaligned && (GetInsn(h.mem, Epc(h)).None? || isVector(GetInsn(h.mem, Epc(h)).value))) ==>
                vectorSpeed == old(vectorSpeed)
                && (cfg.scalarMisaligned ==>
                      Outcome(ret, h') == ScalarLoad(cfg, enabled, t, h) && speed == old(speed)[cpu := ScalarEmulated])
                && (!cfg.scalarMisaligned ==> ret == -1 && h' == h && speed == old(speed))
    {
      if cfg.vectorMisaligned {
        var fetched := GetInsn(h.mem, Epc(h));
        if fetched.None? {
          return -1, h;
        }
        if isVector(fetched.value) {
          ret, h' := HandleVectorLoad(cpu, h);
          return;
        }
      }
      if cfg.scalarMisaligned {
        ret, h' := HandleScalarLoad(cpu, t, h);
        return;
      }
      return -1, h;
    }

    /** `handle_misaligned_store`: the scalar handler when it is built in, failure otherwise. */
    method HandleMisalignedStore(t: Trap, h: Hart) returns (ret: int, h': Hart)
      requires WellFormed(h) && (!t.user ==> KernelStoreReachable(cfg, t, h))
      ensures cfg.scalarMisaligned ==> Outcome(ret, h') == ScalarStore(cfg, enabled, t, h)
      ensures !cfg.scalarMisaligned ==> ret == -1 && h' == h
    {
      if cfg.scalarMisaligned {
        var o := ScalarStore(cfg, enabled, t, h);
        return o.ret, o.hart;
      }
      return -1, h;
    }

    // -------------------------------------------------------------------
    // Probes

    /**
     * `all_cpus_unaligned_scalar_access_emulated`: whether every online
     * CPU records its scalar misaligned accesses as emulated.
     */
    method AllCpusScalarEmulated() returns (b: bool)
      requires Valid()
      ensures b == AllEmulated(speed, online)
    {
      var i := 0;
      while i < |online|
        invariant 0 <= i <= |online|
        invariant AllEmulated(speed, online[..i])
      {
        if speed[online[i]] != ScalarEmulated {
          return false;
        }
        assert online[..i + 1] == online[..i] + [online[i]];
        i := i + 1;
      }
      assert online[..i] == online;
      return true;
    }

    /**
     * `check_unaligned_access_emulated` on `cpu`: the speed is reset to
     * unknown and a misaligned load is issued; `trapped` says whether it
     * trapped, in which case the trap handler records the CPU as
     * emulated.
     */
    method CheckScalarEmulated(cpu: nat, trapped: bool)
      requires Valid()
      modifies this`speed
      ensures Valid()
      ensures speed == old(speed)[cpu := ScalarProbeResult(trapped)]
    {
      speed := speed[cpu := ScalarUnknown];
      if trapped {
        speed := speed[cpu := ScalarEmulated];
      }
    }

    /**
     * `cpu_online_check_unaligned_access_emulated`: a CPU brought online
     * is probed, and refused with -EINVAL when `unaligned_ctl` promised
     * that every CPU traps but this one does not.
     */
    method OnlineCheck(cpu: nat, trapped: bool) returns (ret: int)
      requires Valid()
      modifies this`speed
      ensures Valid()
      ensures ret == (if cfg.scalarMisaligned && unalignedCtl && !trapped then -EINVAL else 0)
      ensures speed == if cfg.scalarMisaligned then old(speed)[cpu := ScalarProbeResult(trapped)] else old(speed)
    {
      if !cfg.scalarMisaligned {
        return 0;
      }
      CheckScalarEmulated(cpu, trapped);
      if unalignedCtl && speed[cpu] != ScalarEmulated {
        return -EINVAL;
      }
      return 0;
    }

    /**
     * The probe run on every online CPU: afterwards each online CPU records
     * the result of its own probe and every other CPU keeps its speed.
     */
    method ProbeScalarAll(trapped: set<nat>)
      requires Valid()
      modifies this`speed
      ensures Valid()
      ensures forall c :: c in speed <==> c in old(speed)
      ensures forall c | c in speed ::
                speed[c] == if c in online then ScalarProbeResult(c in trapped) else old(speed)[c]
    {
      var i := 0;
      while i < |online|
        invariant 0 <= i <= |online| && Valid()
        invariant forall c :: c in speed <==> c in old(speed)
        invariant forall c | c in speed ::
                    speed[c] == if c in online[..i] then ScalarProbeResult(c in trapped) else old(speed)[c]
      {
        CheckScalarEmulated(online[i], online[i] in trapped);
        assert online[..i + 1] == online[..i] + [online[i]];
        i := i + 1;
      }
      assert online[..i] == online;
    }

    /**
     * `check_unaligned_access_emulated_all_cpus`: the per-task
     * `PR_UNALIGN` controls are offered (`unaligned_ctl` is set) exactly
     * when every online CPU traps on misaligned scalar accesses.  Each
     * online CPU records its own probe result; the others keep their
     * speeds, and so does every CPU when scalar emulation is not built in.
     */
    method CheckAllCpus(trapped: set<nat>) returns (b: bool)
      requires Valid()
      modifies this`speed, this`unalignedCtl
      ensures Valid()
      ensures b <==> cfg.scalarMisaligned && AllTrapped(online, trapped)
      ensures unalignedCtl == (old(unalignedCtl) || b)
      ensures b ==> AllEmulated(speed, online)
      ensures forall c :: c in speed <==> c in old(speed)
      ensures forall c | c in speed ::
                speed[c] == if cfg.scalarMisaligned && c in online then ScalarProbeResult(c in trapped) else old(speed)[c]
    {
      if !cfg.scalarMisaligned {
        return false;
      }
      ProbeScalarAll(trapped);
      b := AllCpusScalarEmulated();
      assert AllEmulated(speed, online) <==> AllTrapped(online, trapped) by {
        assert forall i | 0 <= i < |online| :: speed[online[i]] == ScalarProbeResult(online[i] in trapped);
      }
      if b {
        unalignedCtl := true;
      }
    }

    /** `unaligned_ctl_available`. */
    method UnalignedCtlAvailable() returns (b: bool)
      requires Valid()
      ensures b == unalignedCtl && (b ==> cfg.scalarMisaligned)
    {
      return unalignedCtl;
    }

    /**
     * `check_vector_unaligned_access_emulated` on `cpu`: the speed is reset
     * to unknown and a misaligned vector load is issued; when it traps,
     * the vector handler answers the probe with unsupported.
     */
    method CheckVectorEmulated(cpu: nat, trapped: bool)
      requires Valid()
      modifies this`vectorSpeed
      ensures Valid()
      ensures vectorSpeed == old(vectorSpeed)[cpu := VectorProbeResult(trapped)]
    {
      vectorSpeed := vectorSpeed[cpu := VectorUnknown];
      if trapped {
        vectorSpeed := vectorSpeed[cpu := VectorUnsupported];
      }
    }

    /**
     * `check_vector_unaligned_access_emulated_all_cpus`: true exactly when
     * the vector probe trapped on every online CPU, each of which records
     * its own probe result; nothing changes when vector emulation is not
     * built in.
     */
    method CheckVectorAllCpus(trapped: set<nat>) returns (b: bool)
      requires Valid()
      modifies this`vectorSpeed
      ensures Valid()
      ensures b <==> cfg.vectorMisaligned && AllTrapped(online, trapped)
      ensures forall c :: c in vectorSpeed <==> c in old(vectorSpeed)
      ensures !cfg.vectorMisaligned ==> vectorSpeed == old(vectorSpeed)
      ensures cfg.vectorMisaligned ==> forall c | c in vectorSpeed ::
                vectorSpeed[c] == if c in online then VectorProbeResult(c in trapped) else old(vectorSpeed)[c]
    {
      if !cfg.vectorMisaligned {
        return false;
      }
      var i := 0;
      while i < |online|
        invariant 0 <= i <= |online| && Valid()
        invariant forall c :: c in vectorSpeed <==> c in old(vectorSpeed)
        invariant forall c | c in vectorSpeed ::
                    vectorSpeed[c] == if c in online[..i] then VectorProbeResult(c in trapped) else old(vectorSpeed)[c]
      {
        CheckVectorEmulated(online[i], online[i] in trapped);
        assert online[..i + 1] == online[..i] + [online[i]];
        i := i + 1;
      }
      assert online[..i] == online;
      var j := 0;
      while j < |online|
        invariant 0 <= j <= |online|
        invariant AllTrapped(online[..j], trapped)
      {
        if vectorSpeed[online[j]] == VectorUnknown {
          return false;
        }
        assert online[..j + 1] == online[..j] + [online[j]];
        j := j + 1;
      }
      assert online[..j] == online;
      return true;
    }

    // -------------------------------------------------------------------
    // Delegation through SBI

    /**
     * `cpu_online_sbi_unaligned_setup`: a CPU brought online on which the
     * firmware refuses to delegate misaligned traps (`fwftFails`) is refused
     * with -EINVAL when the other CPUs delegate them.
     */
    method SbiSetup(fwftFails: bool) returns (ret: int)
      requires Valid()
      ensures ret == -EINVAL <==> fwftFails && trapsDelegated
      ensures ret == 0 || ret == -EINVAL
    {
      if cfg.sbi && fwftFails && trapsDelegated {
        return -EINVAL;
      }
      return 0;
    }

    /**
     * `unaligned_access_init`: misaligned traps count as delegated once the
     * firmware accepted the delegation on every online CPU.
     */
    method UnalignedAccessInit(allAccepted: bool)
      requires Valid()
      modifies this`trapsDelegated
      ensures Valid()
      ensures trapsDelegated == (old(trapsDelegated) || (cfg.sbi && allAccepted))
    {
      if cfg.sbi && allAccepted {
        trapsDelegated := true;
      }
    }

    /**
     * `cpu_online_unaligned_access_init`: the SBI setup, then, only if it
     * passed, the scalar probe, which records the CPU's result when scalar
     * emulation is built in; the CPU is refused when either finds it out of
     * line with the others.
     */
    method OnlineInit(cpu: nat, fwftFails: bool, trapped: bool) returns (ret: int)
      requires Valid()
      modifies this`speed
      ensures Valid()
      ensures ret == -EINVAL <==> (fwftFails && trapsDelegated) || (cfg.scalarMisaligned && unalignedCtl && !trapped)
      ensures ret == 0 || ret == -EINVAL
      ensures speed == if !(fwftFails && trapsDelegated) && cfg.scalarMisaligned
                       then old(speed)[cpu := ScalarProbeResult(trapped)] else old(speed)
    {
      ret := SbiSetup(fwftFails);
      if ret != 0 {
        return;
      }
      ret := OnlineCheck(cpu, trapped);
    }

    /**
     * `misaligned_traps_can_delegate`: either the delegation was requested
     * successfully, or every online CPU traps on misaligned accesses anyway.
     */
    method CanDelegate() returns (b: bool)
      requires Valid()
      ensures b <==> trapsDelegated || AllEmulated(speed, online)
    {
      if trapsDelegated {
        return true;
      }
      b := AllCpusScalarEmulated();
    }
  }
}

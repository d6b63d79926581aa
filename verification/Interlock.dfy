/** src/pwm_utils.cpp and src/acmp.cpp: the PWM output interlock in every interleaving.

    The foreground sequences are the source's, with `Interfere()` between any two volatile
    accesses: it runs any number of trip ISRs (unless IRQs are off) and comparator pulses.
    What holds here therefore holds of every interleaving.  Pin levels and the thermal and
    MTP permits are free at each read. */
module Interlock {

  const WORD := 0x1_0000_0000

  const Modules: set<int> := {1, 2, 3, 4} // FlexPWM1 to FlexPWM4
  const Cells: set<int> := {0, 1, 2, 3}   // modulation cells on FlexPWM2

  /** The configured overcurrent protection. */
  datatype LimitMode = NoLimit | CycleByCycle | Latching

  class PwmInterlock {
    var outen: set<int>       // modules whose OUTEN is connected
    var pol: set<int>         // cells whose OCTRL polarity bits are set
    var invMask: set<int>     // vInvertedCellMask
    var outInhibited: bool    // vOutputInhibited
    var tripped: bool         // vFaultTripped
    var restart: bool         // vRestartInhibited
    var hardware: bool        // vHardwareInhibited
    var provisioning: bool    // vProvisioningInhibited
    var valid: bool           // vPwmConfigurationValid
    var gen: nat              // vFaultGeneration
    var irqOff: bool          // between noInterrupts() and interrupts()
    var ready: bool           // vProtectionReady
    var armed: bool           // vLatchedArmed
    var route1: bool          // the comparator reaches PWM1's FAULT0
    var route2: bool          // ... and PWM2's
    var fie2: bool            // PWM2's FAULT0 interrupt enable
    var f1: bool              // FFLAG0 of PWM1
    var f2: bool              // FFLAG0 of PWM2
    var pend: bool            // NVIC pending bit of the PWM2 fault IRQ
    var nvic: bool            // NVIC enable bit of the PWM2 fault IRQ

    var calm: bool            // the environment's choice for one call: no pulse, no trip interrupt, no adverse reading

    ghost var total: nat       // masks so far
    ghost var skew: int        // masks less increments: the foreground's load and store may lose some
    ghost var sampledAt: nat   // `total` when a release last sampled vFaultGeneration
    ghost var glitch: bool     // a polarity bit has changed while a driver was connected
    ghost var pulsed: bool     // a comparator pulse since PWM1's flag was last cleared
    ghost var quiet: bool      // protection quiet, read in and after the last commit window; permits held in it

    // --------------------------------------------------------------- what is kept

    /** Holds at every point of every interleaving. */
    ghost predicate Base()
      reads this
    {
      && outen <= Modules && pol <= Cells && invMask <= Cells && gen == (total - skew) % WORD
      && (outen != {} ==> pol == invMask && ready) && !glitch
      && (pulsed ==> f1)
      && (armed ==> route1 && route2 && fie2)
    }

    /** While not tripped, the comparator interrupt is enabled and pends with the flags. */
    ghost predicate Watching()
      reads this
    {
      armed && !tripped ==> nvic && (f1 || f2 ==> pend)
    }

    ghost predicate InterlocksClear()
      reads this
    {
      !tripped && !restart && !hardware && !provisioning && valid
    }

    /** No cell outside the configured mask is inverted. */
    ghost predicate PolarityWithinMask()
      reads this
    {
      valid ==> pol <= invMask
    }

    /** Holds whenever control is outside the interlock's functions. */
    ghost predicate Outside()
      reads this
    {
      && Base() && !irqOff && Watching() && PolarityWithinMask()
      && (outen != {} ==> outen == Modules && InterlocksClear() && !outInhibited && total == sampledAt && quiet)
    }

    /** The foreground's own variables. */
    twostate predicate ForegroundKept()
      reads this
    {
      && restart == old(restart) && hardware == old(hardware) && provisioning == old(provisioning)
      && valid == old(valid) && invMask == old(invMask) && irqOff == old(irqOff)
      && ready == old(ready) && armed == old(armed)
      && route1 == old(route1) && route2 == old(route2) && fie2 == old(fie2)
      && sampledAt == old(sampledAt) && quiet == old(quiet) && calm == old(calm)
    }

    /** What ISRs and pulses can do in any number: nothing but raise flags, or at least one
        mask, after which everything is disconnected and tripped. */
    twostate predicate Rely()
      reads this
    {
      && ForegroundKept()
      && (old(f1) ==> f1) && (old(f2) ==> f2) && (old(pulsed) ==> pulsed)
      && total >= old(total) && skew == old(skew)
      && (old(tripped) ==> tripped) && (nvic ==> old(nvic))
      && (total == old(total) ==>
            && outen == old(outen) && pol == old(pol) && outInhibited == old(outInhibited)
            && tripped == old(tripped) && nvic == old(nvic) && (old(pend) ==> pend)
            && (armed && !old(f1) && !old(f2) && (f1 || f2) ==> pend))
      && (total > old(total) ==>
            !irqOff && outen == {} && outInhibited && tripped && pol == old(pol) - invMask)
      && Calm()
    }

    /** In a calm environment nothing masks and the flags stand as they were. */
    twostate predicate Calm()
      reads this
    {
      calm ==>
        && total == old(total) && gen == old(gen) && tripped == old(tripped)
        && f1 == old(f1) && f2 == old(f2) && (pend ==> old(pend) || old(f2))
    }

    // -------------------------------------------------------------- the environment

    /** Any number of trip ISRs and comparator pulses. */
    method Interfere()
      requires Base()
      modifies this
      ensures Base() && Rely()
      decreases 1, 1
    {
      var n: nat :| true;
      while n > 0
        invariant Base() && Rely()
      {
        InterfereOnce();
        n := n - 1;
      }
    }

    method InterfereOnce()
      requires Base()
      modifies this
      ensures Base() && Rely()
      decreases 1, 0
    {
      var what: nat :| true;
      if what == 0 && !calm {
        ComparatorPulse();
      } else if what == 1 && !calm && !irqOff {
        FaultTripIsr();
      } else if what == 2 && !calm && !irqOff && pend && nvic {
        AcmpFaultIsr();
      } else if what == 3 && f2 && fie2 {
        pend := true; // a level-sensitive line pends again while its flag stands
      }
    }

    /** The comparator fires: each routed flag latches, PWM2's interrupt pends. */
    method ComparatorPulse()
      requires Base() && !calm
      modifies this
      ensures Base() && Rely() && total == old(total)
      ensures f1 == (old(f1) || route1) && pulsed == (old(pulsed) || route1)
      ensures f2 == (old(f2) || route2) && pend == (old(pend) || (route2 && fie2))
    {
      if route1 {
        f1 := true;
        pulsed := true;
      }
      if route2 {
        f2 := true;
        if fie2 { pend := true; }
      }
    }

    method FaultTripIsr()
      requires Base() && !irqOff && !calm
      modifies this
      ensures Base() && Rely() && total == old(total) + 1 && f1 == old(f1) && f2 == old(f2)
      decreases 0, 3
    {
      MaskAllOutputsSafely(false);
      tripped := true;
    }

    method AcmpFaultIsr()
      requires Base() && !irqOff && !calm
      modifies this
      ensures Base() && Rely() && total == old(total) + 1 && !nvic && !pend && f1 == old(f1) && f2 == old(f2)
      decreases 0, 4
    {
      FaultTripIsr(); // the same mask and flag
      SilenceInterrupt();
    }

    /** Pending ends with the interrupt being taken; re-arming enables it again. */
    method SilenceInterrupt()
      requires Base()
      modifies this`pend, this`nvic
      ensures Base() && !pend && !nvic
    {
      pend, nvic := false, false;
    }

    // ---------------------------------------------------------------- register access

    method SetCellPolarityInverted(k: int, inverted: bool)
      requires k in Cells
      modifies this`pol, this`glitch
      ensures pol == if inverted then old(pol) + {k} else old(pol) - {k}
      ensures glitch == (old(glitch) || (outen != {} && pol != old(pol)))
    {
      ghost var was := pol;
      pol := if inverted then pol + {k} else pol - {k};
      glitch := glitch || (outen != {} && pol != was);
    }

    /** `preemptible`: called from the foreground, not from an ISR. */
    method DisconnectAllOutputDrivers(preemptible: bool)
      requires Base() && (preemptible ==> !irqOff)
      modifies this
      ensures Base() && outen == {}
      ensures if preemptible then RelyButPads() else KeptButPads()
      decreases if preemptible then 2 else 0, 1
    {
      for m := 1 to 5
        invariant Base() && outen <= Modules && forall j | 1 <= j < m :: j !in outen
        invariant if preemptible then RelyButPads() else KeptButPads()
      {
        DisconnectOne(m, preemptible);
      }
      assert outen == {};
    }

    method DisconnectOne(m: int, preemptible: bool)
      requires Base() && (preemptible ==> !irqOff)
      modifies this
      ensures Base() && outen <= old(outen) - {m}
      ensures if preemptible then RelyButPads() else KeptButPads()
      decreases if preemptible then 2 else 0, 0
    {
      outen := outen - {m};
      if preemptible { Interfere(); }
    }

    /** As Rely, but the foreground may also have disconnected pads and lifted nothing. */
    twostate predicate RelyButPads()
      reads this
    {
      RelyButPolarity() && (pol == old(pol) || pol == old(pol) - invMask)
    }

    twostate predicate RelyButPolarity()
      reads this
    {
      && ForegroundKept()
      && (old(f1) ==> f1) && (old(f2) ==> f2) && (old(pulsed) ==> pulsed)
      && total >= old(total) && (old(tripped) ==> tripped)
      && (old(outInhibited) ==> outInhibited)
      && (old(Watching()) ==> Watching())
      && (calm ==> tripped == old(tripped) && f1 == old(f1) && f2 == old(f2))
    }

    twostate predicate KeptButPads()
      reads this
    {
      KeptButPolarity() && pol == old(pol)
    }

    twostate predicate KeptButPolarity()
      reads this
    {
      && ForegroundKept() && outInhibited == old(outInhibited) && tripped == old(tripped)
      && gen == old(gen) && f1 == old(f1) && f2 == old(f2) && pend == old(pend) && nvic == old(nvic)
      && total == old(total) && pulsed == old(pulsed) && skew == old(skew)
    }

    /** The one path to dark: pads first, then polarity. */
    method MaskAllOutputsSafely(preemptible: bool)
      requires Base() && (preemptible ==> !irqOff)
      modifies this
      ensures Base() && outen == {} && outInhibited && pol == old(pol) - invMask
      ensures preemptible ==> RelyButPads() && total > old(total)
      ensures !preemptible ==>
                && ForegroundKept() && tripped == old(tripped)
                && gen == (old(gen) + 1) % WORD && total == old(total) + 1
                && f1 == old(f1) && f2 == old(f2) && pend == old(pend) && nvic == old(nvic) && pulsed == old(pulsed)
                && skew == old(skew)
      decreases if preemptible then 2 else 0, 2
    {
      AnnounceMask(preemptible);
      DisconnectAllOutputDrivers(preemptible);
      UninvertCells(preemptible);
    }

    /** The flag and the generation, before any pad moves. */
    method AnnounceMask(preemptible: bool)
      requires Base() && (preemptible ==> !irqOff)
      modifies this
      ensures Base() && outInhibited
      ensures preemptible ==> RelyButPads() && total > old(total)
      ensures !preemptible ==>
                && ForegroundKept() && tripped == old(tripped)
                && gen == (old(gen) + 1) % WORD && total == old(total) + 1
                && f1 == old(f1) && f2 == old(f2) && pend == old(pend) && nvic == old(nvic) && pulsed == old(pulsed)
                && skew == old(skew)
                && pol == old(pol) && outen == old(outen)
      decreases if preemptible then 2 else 0, 1
    {
      outInhibited := true;
      if preemptible { Interfere(); }
      BumpGeneration(preemptible);
    }

    method BumpGeneration(preemptible: bool)
      requires Base() && (preemptible ==> !irqOff)
      modifies this
      ensures Base()
      ensures preemptible ==> RelyButPads() && total > old(total)
      ensures !preemptible ==> KeptButGeneration() && gen == (old(gen) + 1) % WORD && total == old(total) + 1
      decreases if preemptible then 2 else 0, 0
    {
      var g := gen; // vFaultGeneration++ is a load and a store
      if preemptible { Interfere(); }
      StoreGeneration(g, preemptible);
      if preemptible { Interfere(); }
    }

    method StoreGeneration(g: nat, preemptible: bool)
      requires Base() && g < WORD && (!preemptible ==> g == gen)
      modifies this`gen, this`total, this`skew
      ensures Base() && gen == (g + 1) % WORD && total == old(total) + 1
      ensures !preemptible ==> skew == old(skew)
    {
      NextGeneration(total, skew);
      gen, total := (g + 1) % WORD, total + 1;
      if preemptible { skew := total - gen; }
    }

    twostate predicate KeptButGeneration()
      reads this
    {
      && ForegroundKept() && tripped == old(tripped) && outInhibited == old(outInhibited)
      && f1 == old(f1) && f2 == old(f2) && pend == old(pend) && nvic == old(nvic) && pulsed == old(pulsed)
      && skew == old(skew) && pol == old(pol) && outen == old(outen)
    }

    /** The loop over vInvertedCellMask, entered with the pads disconnected. */
    method UninvertCells(preemptible: bool)
      requires Base() && outen == {} && (preemptible ==> !irqOff)
      modifies this
      ensures Base() && outen == {} && pol == old(pol) - invMask
      ensures if preemptible then RelyButPads() else KeptButPolarity()
      decreases if preemptible then 2 else 0, 0
    {
      var m := invMask;
      while m != {}
        invariant Base() && outen == {} && m <= invMask == old(invMask)
        invariant old(pol) - invMask <= pol <= old(pol) && forall k | k in pol && k in invMask :: k in m
        invariant if preemptible then RelyButPolarity() else KeptButPolarity()
        decreases m
      {
        var k :| k in m;
        m := m - {k};
        SetCellPolarityInverted(k, false);
        if preemptible { Interfere(); }
      }
      assert pol == old(pol) - invMask;
    }

    // ------------------------------------------------------------------ the release

    /** A pin level or a permit, free at each read. */
    method AdverseReading() returns (adverse: bool)
      ensures calm ==> !adverse
    {
      adverse := *;
      adverse := adverse && !calm;
    }

    /** Protection configured, no comparator latch standing. */
    predicate Sound()
      reads this
    {
      ready && !(armed && (f1 || f2))
    }

    /** The live levels are free; readiness and the hardware latches are state. */
    method ProtectionLiveOrLatched() returns (live: bool, pins: bool)
      ensures live <==> pins || !Sound()
      ensures calm ==> !pins
    {
      pins := AdverseReading();
      live := !ready || pins || (armed && (f1 || f2));
    }

    /** The part of Outside that a release needs, and keeps. */
    ghost predicate Releasable()
      reads this
    {
      && Base() && !irqOff && PolarityWithinMask()
      && (outen != {} ==> outen == Modules && InterlocksClear() && !outInhibited && quiet)
    }

    /** What the restoring loop and its interference do. */
    twostate predicate Restoring()
      reads this
    {
      && ForegroundKept()
      && (old(f1) ==> f1) && (old(f2) ==> f2) && (old(pulsed) ==> pulsed) && (old(tripped) ==> tripped)
      && total >= old(total) && skew == old(skew)
      && (total == old(total) ==> outen == old(outen) && tripped == old(tripped) && outInhibited == old(outInhibited))
      && (total > old(total) ==> outen == {} && tripped && outInhibited)
      && pol <= old(pol) + invMask
      && Calm()
    }

    method RestoreCellPolarity()
      requires Base() && !irqOff
      modifies this
      ensures Base() && Restoring()
      ensures total == old(total) ==> invMask <= pol
    {
      var m := invMask;
      while m != {}
        invariant Base() && Restoring() && m <= invMask
        invariant total == old(total) ==> invMask - m <= pol
        decreases m
      {
        var k :| k in m;
        m := m - {k};
        SetCellPolarityInverted(k, true);
        Interfere();
      }
    }

    method ConnectConfiguredOutputDrivers()
      requires Base() && irqOff && pol == invMask && ready
      modifies this
      ensures Base() && PulsesOnly()
      ensures outen == Modules
    {
      for m := 1 to 5
        invariant Base() && PulsesOnly() && forall j | 1 <= j < m :: j in outen
      {
        outen := outen + {m};
        Interfere();
      }
      assert outen == Modules;
    }

    method ConnectUninhibited()
      requires Base() && irqOff && pol == invMask && ready
      modifies this
      ensures Base() && PulsesOnly()
      ensures outen == Modules && !outInhibited
    {
      ConnectConfiguredOutputDrivers();
      outInhibited := false;
      Interfere();
    }

    /** With IRQs off only comparator pulses interfere. */
    twostate predicate PulsesOnly()
      reads this
    {
      && ForegroundKept() && pol == old(pol) && total == old(total) && gen == old(gen)
      && tripped == old(tripped) && (old(pulsed) ==> pulsed)
      && (armed && !old(f1) && !old(f2) && (f1 || f2) ==> pend) && (old(pend) ==> pend)
      && (old(f1) ==> f1) && (old(f2) ==> f2)
      && Calm()
    }

    method ReleaseOutputInhibit() returns (ok: bool)
      requires Releasable()
      modifies this
      ensures Releasable()
      ensures restart == old(restart) && hardware == old(hardware) && provisioning == old(provisioning)
      ensures valid == old(valid) && Wiring()
      ensures !ok ==> outen == {}
      ensures ok ==> !restart && !hardware && !provisioning && valid
      ensures ok ==> outen == Modules || tripped
      ensures outen != {} ==> total == sampledAt
      ensures ok && armed && (f1 || f2) ==> pend || tripped
      ensures calm == old(calm)
      ensures sampledAt == old(total) <= total && (old(tripped) ==> !ok)
      ensures calm ==> ok == old(InterlocksClear() && Sound()) && (ok ==> Calm())
      ensures calm && old(!Sound()) ==> tripped
    {
      var genAtEntry;
      ok, genAtEntry := Admit();
      if ok { ok := ReleaseAdmitted(genAtEntry); }
    }

    /** The commit and what follows it. */
    method ReleaseAdmitted(genAtEntry: nat) returns (ok: bool)
      requires Committable()
      modifies this
      ensures Releasable()
      ensures restart == old(restart) && hardware == old(hardware) && provisioning == old(provisioning)
      ensures valid == old(valid) && Wiring()
      ensures !ok ==> outen == {}
      ensures ok ==> outen == Modules || tripped
      ensures outen != {} ==> total == sampledAt
      ensures ok && armed && (f1 || f2) ==> pend || tripped
      ensures calm == old(calm) && sampledAt == old(sampledAt) && total >= old(total)
      ensures calm && old(!tripped && gen == genAtEntry && Sound()) ==> ok && Calm()
    {
      var live, permits;
      ok, live, permits := Commit(genAtEntry);
      if ok {
        ok := Confirm(genAtEntry, !live && permits);
      } else {
        MaskAllOutputsSafely(true);
      }
    }

    /** Connected, or tripped since; a latched flag is pending or has tripped. */
    ghost predicate Released()
      reads this
    {
      && Releasable() && (outen != {} ==> total == sampledAt) && (outen == Modules || tripped)
      && (armed && (f1 || f2) ==> pend || tripped)
    }

    /** Connected by the commit, or tripped since, and not looked at again yet. */
    ghost predicate Connected()
      reads this
    {
      && Base() && !irqOff && PolarityWithinMask()
      && (outen != {} ==> outen == Modules && InterlocksClear() && !outInhibited && total == sampledAt)
      && (outen == Modules || tripped) && (armed && (f1 || f2) ==> pend || tripped)
    }

    /** IRQs on again: masked once more unless the second look is as quiet as the first was. */
    method Confirm(genAtEntry: nat, ghost first: bool) returns (ok: bool)
      requires Connected() && first
      modifies this
      ensures Releasable()
      ensures restart == old(restart) && hardware == old(hardware) && provisioning == old(provisioning)
      ensures valid == old(valid) && Wiring() && calm == old(calm)
      ensures sampledAt == old(sampledAt) && total >= old(total)
      ensures !ok ==> outen == {}
      ensures ok ==> outen == Modules || tripped
      ensures outen != {} ==> total == sampledAt
      ensures ok && armed && (f1 || f2) ==> pend || tripped
      ensures calm && old(!tripped && gen == genAtEntry && Sound()) ==> ok && Calm()
    {
      var live;
      ok, live := Recheck(genAtEntry);
      if !ok {
        MaskAllOutputsSafely(true);
        return;
      }
      quiet := first && !live;
    }

    /** What the commit window relies on. */
    ghost predicate Committable()
      reads this
    {
      && Base() && irqOff && PolarityWithinMask() && !restart && !hardware && !provisioning && valid
      && total >= sampledAt && (total > sampledAt ==> tripped) && (total == sampledAt ==> invMask <= pol)
      && (outen != {} ==> outen == Modules && InterlocksClear() && !outInhibited)
    }

    /** From the sample of vFaultGeneration to the point where IRQs go off. */
    method Admit() returns (ok: bool, genAtEntry: nat)
      requires Releasable()
      modifies this
      ensures restart == old(restart) && hardware == old(hardware) && provisioning == old(provisioning)
      ensures valid == old(valid) && Wiring()
      ensures if ok then Committable() else Releasable() && outen == {}
      ensures calm == old(calm)
      ensures sampledAt == old(total) <= total && (old(tripped) ==> !ok)
      ensures calm ==> ok == old(InterlocksClear() && Sound()) && (ok ==> gen == genAtEntry && Calm())
      ensures calm && old(!Sound()) ==> tripped
    {
      genAtEntry := gen;
      sampledAt := total;
      ok := ConditionsHold();
      if ok {
        RestoreCellPolarity();
        Interfere();
        irqOff := true;
      } else {
        var _ := Refuse();
      }
    }

    /** Between the sample and the commit window: a mask since then shows as a trip. */
    ghost predicate Sampled()
      reads this
    {
      Releasable() && total >= sampledAt && (total > sampledAt ==> tripped)
    }

    method PreemptSampled()
      requires Sampled()
      modifies this
      ensures Sampled() && Rely()
    {
      Interfere();
    }

    /** The conditions on entry, each read at its own time. */
    method ConditionsHold() returns (ok: bool)
      requires Sampled()
      modifies this
      ensures Sampled() && ForegroundKept()
      ensures ok ==> valid && !restart && !hardware && !provisioning
      ensures old(tripped) ==> tripped && !ok
      ensures calm ==> ok == old(InterlocksClear() && Sound()) && Calm()
    {
      hide Sampled();
      PreemptSampled();
      ok := valid && !tripped && !restart && !hardware && !provisioning;
      var pins, barred;
      ok, pins, barred := SafeguardsHold(ok);
    }

    /** Protection, then the permits. */
    method SafeguardsHold(before: bool) returns (ok: bool, pins: bool, barred: bool)
      requires Sampled()
      modifies this
      ensures Sampled() && ForegroundKept() && (ok ==> before && !pins && !barred)
      ensures old(tripped) ==> tripped
      ensures calm ==> ok == (before && old(Sound())) && Calm()
    {
      hide Sampled();
      PreemptSampled();
      var live;
      live, pins := ProtectionLiveOrLatched();
      barred := AdverseReading(); // thermalAllowsPwmRelease(), mtpAllowsPwmRelease()
      ok := before && !live && !barred;
      PreemptSampled();
    }

    /** After the commit, IRQs on again: anything that moved masks once more. */
    method Recheck(genAtEntry: nat) returns (ok: bool, live: bool)
      requires Base() && !irqOff
      modifies this
      ensures Base() && Rely() && (ok ==> !live)
      ensures calm && old(!tripped && gen == genAtEntry && Sound()) ==> ok
    {
      Interfere();
      var pins;
      live, pins := ProtectionLiveOrLatched();
      if tripped || gen != genAtEntry || live { return false, live; }
      Interfere();
      ok := true;
    }

    /** The refusing branch: mark a live trip, disconnect. */
    method Refuse() returns (live: bool)
      requires Releasable()
      modifies this
      ensures Releasable() && outen == {} && ForegroundKept() && total >= old(total)
      ensures live ==> tripped
      ensures calm ==> live == old(!Sound())
    {
      Interfere();
      var pins;
      live, pins := ProtectionLiveOrLatched();
      if live {
        tripped := true;
        Interfere();
      }
      DisconnectAllOutputDrivers(true);
    }

    /** The IRQ-off window: re-check everything, then connect. */
    method Commit(genAtEntry: nat) returns (ok: bool, live: bool, permits: bool)
      requires Committable()
      modifies this
      ensures Base() && !irqOff && PolarityWithinMask()
      ensures restart == old(restart) && hardware == old(hardware) && provisioning == old(provisioning)
      ensures valid == old(valid) && Wiring() && sampledAt == old(sampledAt) && total >= old(total)
      ensures ok && outen != {} ==> !tripped && !outInhibited && total == sampledAt
      ensures ok ==> outen == if total == sampledAt then Modules else {}
      ensures ok && total != sampledAt ==> tripped
      ensures ok ==> !live && permits
      ensures calm == old(calm)
      ensures calm && old(!tripped && gen == genAtEntry && Sound()) ==> ok && Calm()
      ensures ok && armed && (f1 || f2) ==> pend || tripped
    {
      Interfere();
      var pins;
      live, pins := ProtectionLiveOrLatched();
      var barred := AdverseReading();
      permits := !barred;
      if tripped || gen != genAtEntry || live || !permits {
        irqOff := false;
        Interfere();
        return false, live, permits;
      }
      assert total == sampledAt && pol == invMask;
      ConnectUninhibited();
      irqOff := false;
      Interfere();
      ok := true;
    }

    // ------------------------------------------------------------- acknowledging a trip

    /** Preemption while control is outside the interlock's functions. */
    method Preempt()
      requires Outside()
      modifies this
      ensures Outside() && Rely()
    {
      Interfere();
    }

    /** A step that connects nothing and clears no trip. */
    twostate predicate Quiet()
      reads this
    {
      && ForegroundKept() && (old(tripped) ==> tripped) && (old(outen) == {} ==> outen == {})
      && total >= old(total) && (calm ==> total == old(total) && tripped == old(tripped))
    }

    method PreemptQuiet()
      requires Outside()
      modifies this
      ensures Outside() && Quiet() && Calm()
      ensures (outen == old(outen) || tripped) && (calm ==> nvic == old(nvic)) && (nvic ==> old(nvic))
      ensures total >= old(total) && (total > old(total) ==> tripped) && (old(outInhibited) ==> outInhibited)
    {
      Interfere();
    }

    /** writeFsts() on PWM1, preempted after the write. */
    method ClearFlag1()
      requires Outside()
      modifies this
      ensures Outside() && Quiet()
      ensures calm ==> !f1 && f2 == old(f2)
    {
      f1, pulsed := false, false;
      Preempt();
    }

    method ClearFlag2()
      requires Outside()
      modifies this
      ensures Outside() && Quiet()
      ensures calm ==> f1 == old(f1) && !f2
    {
      f2 := false;
      Preempt();
    }

    method ClearPending()
      requires Outside() && (armed ==> tripped)
      modifies this
      ensures Outside() && Quiet()
      ensures calm ==> f1 == old(f1) && f2 == old(f2) && (pend ==> f2)
    {
      pend := false;
      Preempt();
    }

    /** acmpClearLatch(): PWM1 first, the IRQ-owning PWM2 last, then the stale pending bit. */
    method AcmpClearLatch()
      requires Outside() && tripped
      modifies this
      ensures Outside() && tripped && ForegroundKept() && total >= old(total) && (calm ==> total == old(total))
      ensures armed && calm ==> !f1 && !f2 && !pend
      ensures old(!armed) ==> unchanged(this)
    {
      hide Outside();
      if !armed { return; }
      ClearFlag1();
      ClearFlag2();
      ClearPending();
    }

    /** The clear is believed only if both latches and both pins stayed quiet throughout. */
    method ClearLatchVerified() returns (ok: bool, pins: bool, latched: bool)
      requires Outside() && tripped
      modifies this
      ensures Outside() && tripped && ForegroundKept() && total >= old(total)
      ensures ok <==> !pins && !latched
      ensures calm ==> ok && total == old(total) && (armed ==> !f1 && !f2 && !pend)
    {
      hide Outside();
      AcmpClearLatch();
      pins := AdverseReading();
      latched := AcmpFaultLatched();
      ok := !pins && !latched;
      PreemptQuiet();
    }

    method AcmpFaultLatched() returns (latched: bool)
      ensures latched <==> armed && (f1 || f2)
    {
      latched := armed && (f1 || f2);
    }

    /** What clearFaultTrip() asks for before it touches anything. */
    ghost predicate Clearable(operatorRequest: bool)
      reads this
    {
      !provisioning && !hardware && valid && (operatorRequest || (!restart && !tripped))
    }

    method Refused(operatorRequest: bool) returns (refused: bool)
      ensures refused == !Clearable(operatorRequest)
    {
      if provisioning || hardware || !valid { return true; }
      if restart && !operatorRequest { return true; }
      return tripped && !operatorRequest; // applying settings never acknowledges a trip
    }

    /** The refusals at the top of clearFaultTrip(). */
    method ClearAdmitted(operatorRequest: bool) returns (ok: bool, pins: bool, ghost checkedAt: nat)
      requires Outside()
      modifies this
      ensures Outside() && ForegroundKept() && (old(tripped) ==> tripped)
      ensures ok ==> !provisioning && !hardware && valid && (restart ==> operatorRequest) && !(armed && pins)
      ensures old(tripped) && !operatorRequest ==> !ok
      ensures calm ==> ok == old(Clearable(operatorRequest)) && Calm()
      ensures old(total) <= checkedAt <= total && (ok && !operatorRequest ==> checkedAt == old(total))
    {
      hide Outside();
      PreemptQuiet();
      checkedAt := total;
      var refused := Refused(operatorRequest);
      if refused { return false, false, checkedAt; }
      ok, pins := ComparatorQuiet();
    }

    method ComparatorQuiet() returns (ok: bool, pins: bool)
      requires Outside()
      modifies this
      ensures Outside() && Quiet() && Calm() && ok == !(armed && pins) && (calm ==> ok)
    {
      hide Outside();
      pins := AdverseReading(); // acmpFaultPinActive()
      ok := !(armed && pins);
      PreemptQuiet();
    }

    /** clearFaultTrip(): on success everything is connected, or an ISR has masked since.
        Masks are counted where the refusal checks read the trip flag and where it is stored:
        of a call that ends connected, without an operator, none came before the first mark or
        after the second.  `gapTrips` is what the otherwise calm environment does between them. */
    method ClearFaultTrip(operatorRequest: bool, gapTrips: nat)
      returns (ok: bool, ghost checkedAt: nat, ghost storedAt: nat)
      requires Outside()
      modifies this
      ensures Outside()
      ensures hardware == old(hardware) && provisioning == old(provisioning) && valid == old(valid)
      ensures calm == old(calm) && Wiring()
      ensures calm && !ok && old(outen) == {} ==> outen == {}
      ensures old(tripped) && !operatorRequest ==> !ok && tripped
      ensures old(restart) && !operatorRequest ==> !ok
      ensures !operatorRequest ==> restart == old(restart)
      ensures operatorRequest && ok ==> !restart
      ensures ok ==> outen == Modules || tripped
      ensures armed && pulsed ==> (tripped && outen == {}) || (pend && nvic)
      ensures ok ==> old(total) <= checkedAt <= storedAt <= total
      ensures ok && outen != {} ==> storedAt == total && (!operatorRequest ==> checkedAt == old(total))
      ensures calm ==>
                ok == old(Clearable(operatorRequest) && ready && (tripped || gapTrips > 0 || !(armed && (f1 || f2))))
      ensures calm && ok ==> outen == Modules && !tripped && (armed && old(tripped) ==> !f1 && !f2 && !pend && nvic)
      ensures calm && ok ==> checkedAt == old(total) && storedAt == checkedAt + gapTrips
    {
      var pins;
      ok, pins, checkedAt := ClearAdmitted(operatorRequest);
      storedAt := checkedAt;
      if !ok { return; }
      TripInGap(gapTrips);
      var cleared;
      ok, cleared, storedAt := ClearAndRelease(operatorRequest);
    }

    /** What follows the refusals: the latch cleared if tripped, then the flag, then the release. */
    method ClearAndRelease(operatorRequest: bool) returns (ok: bool, cleared: bool, ghost storedAt: nat)
      requires Outside() && !provisioning && !hardware && valid && (restart ==> operatorRequest)
      modifies this
      ensures Outside()
      ensures hardware == old(hardware) && provisioning == old(provisioning) && valid == old(valid)
      ensures calm == old(calm) && Wiring()
      ensures ok ==> outen == Modules || tripped
      ensures old(total) <= storedAt && (ok ==> storedAt <= total)
      ensures ok && outen != {} ==> storedAt == total
      ensures calm ==> ok == old(ready && (tripped || !(armed && (f1 || f2))))
      ensures calm && !ok ==> outen == {}
      ensures calm && ok ==> outen == Modules && !tripped && (armed && old(tripped) ==> !f1 && !f2 && !pend && nvic)
      ensures calm && ok ==> storedAt == old(total)
      ensures !cleared ==> !ok && tripped
      ensures restart == (old(restart) && !(cleared && operatorRequest))
    {
      storedAt, cleared := total, true;
      if tripped {
        var pins, latched;
        cleared, pins, latched := ClearLatchVerified();
        if !cleared { return false, cleared, storedAt; }
      }
      if operatorRequest {
        restart := false;
        PreemptQuiet();
      }
      storedAt := total;
      ok := AcknowledgeAndRelease();
    }

    /** Interference like any other, but that a calm environment sends n trips here. */
    method TripInGap(n: nat)
      requires Outside()
      modifies this
      ensures Outside() && ForegroundKept() && (old(tripped) ==> tripped) && total >= old(total)
      ensures calm ==> total == old(total) + n && f1 == old(f1) && f2 == old(f2)
      ensures calm ==> tripped == (old(tripped) || n > 0) && (n == 0 ==> Calm())
    {
      hide Outside();
      if !calm {
        Preempt();
        return;
      }
      for i := 0 to n
        invariant Outside() && ForegroundKept() && calm && (old(tripped) ==> tripped)
        invariant total == old(total) + i && f1 == old(f1) && f2 == old(f2)
        invariant tripped == (old(tripped) || i > 0) && (i == 0 ==> Calm())
      {
        OneTrip();
      }
    }

    method OneTrip()
      requires Outside() && calm
      modifies this
      ensures Outside() && ForegroundKept() && calm && tripped
      ensures total == old(total) + 1 && f1 == old(f1) && f2 == old(f2)
    {
      calm := false;
      FaultTripIsr();
      calm := true;
    }

    /** The tail of clearFaultTrip(): the vector the trip ISR silenced is re-armed last.  A mask
        after the store is never lost. */
    method AcknowledgeAndRelease() returns (ok: bool)
      requires Outside() && !restart && !hardware && !provisioning && valid
      modifies this
      ensures Outside()
      ensures restart == old(restart) && hardware == old(hardware) && provisioning == old(provisioning)
      ensures valid == old(valid) && calm == old(calm) && Wiring()
      ensures if ok then outen == Modules || tripped else outen == {} && tripped
      ensures total >= old(total) && (ok && outen != {} ==> total == old(total))
      ensures calm ==> ok == old(Sound())
      ensures calm && ok ==>
                !tripped && f1 == old(f1) && f2 == old(f2) && (pend ==> old(pend) || old(f2)) && (armed ==> nvic)
      ensures calm && ok ==> total == old(total)
    {
      tripped := false;
      Interfere();
      ok := ReleaseOutputInhibit();
      if ok {
        PreemptReleased();
        Rearm();
      } else {
        KeepTripped();
      }
    }

    /** acmpRearmFaultIrq() */
    method Rearm()
      requires Released()
      modifies this
      ensures Outside() && ForegroundKept()
      ensures outen == Modules || tripped
      ensures total >= old(total) && (old(tripped) || total > old(total) ==> tripped)
      ensures calm ==> Calm() && (armed ==> nvic)
    {
      if armed { nvic := true; }
      PreemptQuiet();
    }

    method PreemptReleased()
      requires Released()
      modifies this
      ensures Released() && ForegroundKept() && Calm()
      ensures total >= old(total) && (old(tripped) || total > old(total) ==> tripped)
    {
      Interfere();
    }

    method KeepTripped()
      requires Releasable() && outen == {}
      modifies this
      ensures Outside() && ForegroundKept() && tripped && outen == {} && total >= old(total)
    {
      tripped := true;
      Interfere();
    }

    /** The core takes the interrupts that are pending and enabled: a comparator pulse has
        ended in the dark, whenever it came. */
    method TakePending()
      requires Outside()
      modifies this
      ensures Outside()
      ensures armed && pulsed ==> tripped && outen == {}
      ensures !old(pend && nvic) ==> tripped == old(tripped) && outen == old(outen)
    {
      calm := false;
      if pend && nvic { AcmpFaultIsr(); }
    }

    /** Trips that fall in the gap are lost: whatever clearFaultTrip(false) would release without
        them it releases with any number of them inside, tripped and masked at the time. */
    method TripsInGapAreLost(n: nat)
      requires Outside() && InterlocksClear() && Sound()
      modifies this
      ensures Outside() && outen == Modules && InterlocksClear() && total == old(total) + n
    {
      calm := true;
      var ok, _, _ := ClearFaultTrip(false, n);
      assert 1 in Modules;
    }

    // ------------------------------------------------------------------ the inhibits

    method SetRestartInhibit(inhibit: bool)
      requires Outside()
      modifies this
      ensures Outside() && restart == inhibit && (inhibit ==> outen == {} && outInhibited)
      ensures hardware == old(hardware) && provisioning == old(provisioning) && valid == old(valid) && Wiring()
      ensures outen <= old(outen) && (old(tripped) ==> tripped)
    {
      restart := inhibit;
      Interfere();
      if inhibit { MaskAllOutputsSafely(true); }
    }

    method SetHardwareInhibit(inhibit: bool)
      requires Outside()
      modifies this
      ensures Outside() && hardware == inhibit && (inhibit ==> outen == {} && outInhibited)
      ensures restart == old(restart) && provisioning == old(provisioning) && valid == old(valid) && Wiring()
      ensures outen <= old(outen) && (old(tripped) ==> tripped)
    {
      hardware := inhibit;
      Interfere();
      if inhibit { MaskAllOutputsSafely(true); }
    }

    method SetProvisioningInhibit(inhibit: bool)
      requires Outside()
      modifies this
      ensures Outside() && provisioning == inhibit && (inhibit ==> outen == {} && outInhibited)
      ensures restart == old(restart) && hardware == old(hardware) && valid == old(valid) && Wiring()
      ensures outen <= old(outen) && (old(tripped) ==> tripped)
    {
      provisioning := inhibit;
      Interfere();
      if inhibit { MaskAllOutputsSafely(true); }
    }

    // ---------------------------------------------------------------- reconfiguration

    /** configurePwm(): the new inversion mask is published, then each cell programmed. */
    method ConfigurePwm(newMask: set<int>)
      requires Outside() && newMask <= Cells
      modifies this
      ensures Outside() && outen == {} && (old(tripped) ==> tripped) && invMask == newMask
      ensures restart == old(restart) && hardware == old(hardware) && provisioning == old(provisioning)
      ensures calm == old(calm) && ready == old(ready) && armed == old(armed)
      ensures calm ==> valid && pol == newMask && Unmoved()
    {
      PublishMask(newMask);
      var programmed := ProgramCells();
      Validate(programmed);
    }

    /** Modules 1, 3 and 4 configured as well. */
    method Validate(programmed: bool)
      requires Base() && !irqOff && outen == {} && Watching() && (programmed ==> pol <= invMask)
      modifies this
      ensures Outside() && outen == {} && (old(tripped) ==> tripped) && Wiring()
      ensures restart == old(restart) && hardware == old(hardware) && provisioning == old(provisioning)
      ensures calm == old(calm)
      ensures calm ==> valid == (old(valid) && programmed) && pol == old(pol) && Unmoved()
    {
      var refused := AdverseReading();
      valid := valid && !refused && programmed;
      PreemptDark();
    }

    method PreemptDark()
      requires Outside() && outen == {}
      modifies this
      ensures Outside() && outen == {} && ForegroundKept() && (old(tripped) ==> tripped)
      ensures calm ==> pol == old(pol) && Unmoved()
    {
      Interfere();
    }

    /** Calm in the dark, where the foreground may mask: no trip, and the flags stand. */
    twostate predicate Unmoved()
      reads this
    {
      tripped == old(tripped) && f1 == old(f1) && f2 == old(f2)
    }

    /** The inversion mask and the current limit as they were configured. */
    twostate predicate Wiring()
      reads this
    {
      && invMask == old(invMask) && armed == old(armed) && ready == old(ready)
      && route1 == old(route1) && route2 == old(route2) && fie2 == old(fie2)
    }

    /** The outputs are masked under the old inversion mask, then the new one is published. */
    method PublishMask(newMask: set<int>)
      requires Outside() && newMask <= Cells
      modifies this
      ensures Base() && !irqOff && outen == {} && Watching() && (old(tripped) ==> tripped)
      ensures valid && invMask == newMask && calm == old(calm) && ready == old(ready) && armed == old(armed)
      ensures restart == old(restart) && hardware == old(hardware) && provisioning == old(provisioning)
      ensures calm ==> Unmoved()
    {
      valid := true;
      Interfere();
      MaskAllOutputsSafely(true);
      invMask := newMask;
      Interfere();
    }

    /** configureModule2(): a submodule that fails may or may not have written its cell. */
    method ProgramCells() returns (ok: bool)
      requires Base() && !irqOff && outen == {} && Watching()
      modifies this
      ensures Base() && ForegroundKept() && outen == {} && Watching() && (old(tripped) ==> tripped)
      ensures ok ==> pol <= invMask
      ensures calm ==> ok && pol == invMask && Unmoved()
    {
      ok := true;
      for k := 0 to 4
        invariant Base() && ForegroundKept() && outen == {} && Watching() && (old(tripped) ==> tripped)
        invariant ok ==> forall j | 0 <= j < k :: j in pol ==> j in invMask
        invariant calm ==> ok && Unmoved() && forall j | 0 <= j < k :: j in pol <==> j in invMask
      {
        var done := ProgramCell(k);
        ok := ok && done;
      }
    }

    method ProgramCell(k: int) returns (done: bool)
      requires Base() && outen == {} && Watching() && k in Cells
      modifies this
      ensures Base() && ForegroundKept() && outen == {} && Watching() && (old(tripped) ==> tripped)
      ensures pol <= old(pol) + {k} && (done && k in pol ==> k in invMask)
      ensures calm ==> done && Unmoved() && pol == if k in invMask then old(pol) + {k} else old(pol) - {k}
    {
      var written: bool := *;
      var refused := AdverseReading();
      done := !refused;
      if done || written { SetCellPolarityInverted(k, k in invMask); }
      Interfere();
    }

    /** acmpConfigure(): tear down, park, clear, then route and arm last.  `sound`: every readback
        up to there was; `routed`: so was every one on the way to the comparator. */
    method AcmpConfigure(mode: LimitMode) returns (sound: bool, routed: bool)
      requires Outside() && outen == {}
      modifies this
      ensures Outside() && outen == {} && (old(tripped) ==> tripped)
      ensures ready <==> sound && (mode == NoLimit || routed)
      ensures !ready ==> tripped
      ensures routed ==> ready && mode != NoLimit
      ensures armed <==> ready && mode == Latching
      ensures ready ==> if mode == NoLimit then !route1 && !route2 && !fie2
                        else route1 && route2 && (fie2 <==> mode == Latching)
      ensures !ready ==> outInhibited && !fie2
      ensures armed ==> nvic || tripped
      ensures restart == old(restart) && hardware == old(hardware) && provisioning == old(provisioning)
      ensures valid == old(valid) && invMask == old(invMask) && calm == old(calm)
      ensures calm ==> ready && tripped == old(tripped) && Sound()
    {
      hide Outside();
      var parked := TearDown();
      var readback := AdverseReading(); // control and recovery readbacks
      sound, routed := parked && !readback, false;
      if !sound {
        FailCurrentLimitArm();
        return;
      }
      if mode == NoLimit {
        ReadyWithoutLimit();
        return;
      }
      routed := RouteComparator(mode);
      if routed { Arm(mode); } else { FailCurrentLimitArm(); }
    }

    method ReadyWithoutLimit()
      requires Outside() && outen == {} && !armed
      modifies this
      ensures Outside() && outen == {} && !armed && ready && Settings() && (old(tripped) ==> tripped)
      ensures route1 == old(route1) && route2 == old(route2) && fie2 == old(fie2)
      ensures calm ==> tripped == old(tripped)
    {
      ready := true;
      PreemptQuiet();
    }

    /** Nothing half-armed: flags, routes and the stale pending bit go before anything new. */
    method TearDown() returns (parked: bool)
      requires Outside() && outen == {}
      modifies this
      ensures Outside() && outen == {} && !armed && !ready && Settings() && (old(tripped) ==> tripped)
      ensures !fie2 && (parked ==> !route1 && !route2)
      ensures calm ==> parked && !f1 && !f2 && !pend && tripped == old(tripped)
    {
      hide Outside();
      Disarm();
      parked := ParkRoutes();
      ClearFlag1();
      ClearFlag2();
      ClearPending();
    }

    /** What reconfiguring the current limit leaves alone. */
    twostate predicate Settings()
      reads this
    {
      && restart == old(restart) && hardware == old(hardware) && provisioning == old(provisioning)
      && valid == old(valid) && invMask == old(invMask) && calm == old(calm)
    }

    method Disarm()
      requires Outside() && outen == {}
      modifies this
      ensures Outside() && outen == {} && !armed && !ready && !nvic && Settings() && (old(tripped) ==> tripped)
      ensures calm ==> tripped == old(tripped)
    {
      DisarmFlag();
      ready := false;
      PreemptQuiet();
      nvic := false;
      PreemptQuiet();
    }

    method DisarmFlag()
      requires Outside() && outen == {}
      modifies this
      ensures Outside() && outen == {} && !armed && Settings() && (old(tripped) ==> tripped)
      ensures calm ==> tripped == old(tripped)
    {
      armed := false;
      PreemptQuiet();
    }

    /** parkFaultRoutes(): what the readbacks confirm is parked; a selector that fails may be either. */
    method ParkRoutes() returns (parked: bool)
      requires Outside() && !armed
      modifies this
      ensures Outside() && !armed && Parking() && !fie2 && (parked ==> !route1 && !route2)
      ensures calm ==> parked
    {
      hide Outside();
      StopInterrupt();
      var first := ParkRoute(1);
      var second := ParkRoute(2);
      parked := first && second;
    }

    twostate predicate Parking()
      reads this
    {
      && Settings() && ready == old(ready) && (nvic ==> old(nvic))
      && (old(tripped) ==> tripped) && (old(outen) == {} ==> outen == {}) && (calm ==> tripped == old(tripped))
    }

    method StopInterrupt()
      requires Outside() && !armed
      modifies this
      ensures Outside() && !armed && Parking() && !fie2
    {
      fie2 := false;
      PreemptQuiet();
    }

    method ParkRoute(m: int) returns (parked: bool)
      requires Outside() && !armed
      modifies this
      ensures Outside() && !armed && Parking() && fie2 == old(fie2)
      ensures if m == 1 then route2 == old(route2) else route1 == old(route1)
      ensures parked ==> if m == 1 then !route1 else !route2
      ensures calm ==> parked
    {
      var stuck: bool := *;
      var refused := AdverseReading();
      parked := !refused;
      if m == 1 { route1 := refused && stuck; } else { route2 := refused && stuck; }
      PreemptQuiet();
    }

    method FailCurrentLimitArm()
      requires Outside() && outen == {}
      modifies this
      ensures Outside() && outen == {} && tripped && !armed && !ready && Settings()
      ensures !fie2 && outInhibited
    {
      Disarm();
      var _ := ParkRoutes();
      MaskAllOutputsSafely(true);
      tripped := true;
      PreemptQuiet();
    }

    /** FAULT0 on both modules, then the two XBAR routes one after the other; true if every readback
        was good. */
    method RouteComparator(mode: LimitMode) returns (routed: bool)
      requires Outside() && outen == {} && !armed
      modifies this
      ensures Outside() && outen == {} && !armed && Settings() && (old(tripped) ==> tripped)
      ensures routed ==> route1 && route2
      ensures fie2 <==> mode == Latching
      ensures calm ==> routed && !f1 && !f2 && tripped == old(tripped)
    {
      hide Outside();
      ClearFlag1();
      NotifyWhen(mode);
      ClearFlag2();
      var unsafe := AdverseReading(); // FAULT0 configuration and fault states
      if unsafe { return false; }
      routed := ConnectRoutes();
    }

    /** FIE0 of PWM2. */
    method NotifyWhen(mode: LimitMode)
      requires Outside() && !armed
      modifies this
      ensures Outside() && !armed && Parking() && (fie2 <==> mode == Latching)
      ensures calm ==> f1 == old(f1) && f2 == old(f2)
    {
      fie2 := mode == Latching;
      PreemptQuiet();
    }

    method ConnectRoutes() returns (routed: bool)
      requires Outside() && !armed
      modifies this
      ensures Outside() && !armed && fie2 == old(fie2) && Parking()
      ensures routed ==> route1 && route2
      ensures calm ==> routed && f1 == old(f1) && f2 == old(f2)
    {
      hide Outside();
      var first := ConnectFirstRoute();
      var second := ConnectSecondRoute();
      routed := first && second;
    }

    /** connectXbarVerified(): a selector that fails its readback may be either.  A pulse right after
        this one latches PWM1 alone, and pends nothing. */
    method ConnectFirstRoute() returns (done: bool)
      requires Outside() && !armed
      modifies this
      ensures Outside() && !armed && (done ==> route1) && fie2 == old(fie2) && Parking()
      ensures calm ==> done && f1 == old(f1) && f2 == old(f2)
    {
      var stuck: bool := *;
      var refused := AdverseReading();
      done, route1 := !refused, !refused || stuck;
      PreemptQuiet();
    }

    method ConnectSecondRoute() returns (done: bool)
      requires Outside() && !armed
      modifies this
      ensures Outside() && !armed && (done ==> route2) && route1 == old(route1) && fie2 == old(fie2) && Parking()
      ensures calm ==> done && f1 == old(f1) && f2 == old(f2)
    {
      var stuck: bool := *;
      var refused := AdverseReading();
      done, route2 := !refused, !refused || stuck;
      PreemptQuiet();
    }

    /** Armed before its interrupt: what PWM1 latched in between is looked for first. */
    method Arm(mode: LimitMode)
      requires Outside() && outen == {} && !armed && route1 && route2 && (fie2 <==> mode == Latching)
      modifies this
      ensures Outside() && outen == {} && Settings() && (old(tripped) ==> tripped)
      ensures (armed <==> mode == Latching) && ready && route1 && route2 && fie2 == old(fie2)
      ensures armed ==> nvic || tripped
      ensures calm && old(!f1 && !f2) ==> !f1 && !f2 && tripped == old(tripped)
    {
      MarkReady(mode);
      if armed { WatchOrTrip(); }
    }

    method MarkReady(mode: LimitMode)
      requires Outside() && outen == {} && !armed && route1 && route2 && (fie2 <==> mode == Latching)
      modifies this
      ensures Base() && !irqOff && PolarityWithinMask() && outen == {} && Settings() && (old(tripped) ==> tripped)
      ensures (armed <==> mode == Latching) && ready && route1 && route2 && fie2 == old(fie2)
      ensures calm ==> f1 == old(f1) && f2 == old(f2) && tripped == old(tripped)
    {
      armed := mode == Latching;
      Interfere();
      ready := true;
      Interfere();
    }

    /** A latched flag trips here; one that comes later pends for the interrupt. */
    method WatchOrTrip()
      requires Base() && !irqOff && PolarityWithinMask() && outen == {} && armed
      modifies this
      ensures Outside() && outen == {} && ForegroundKept() && (old(tripped) ==> tripped)
      ensures nvic || tripped
      ensures old(f1 || f2) ==> tripped && outInhibited && total > old(total)
      ensures calm && old(!f1 && !f2) ==> !f1 && !f2 && tripped == old(tripped)
    {
      if f1 || f2 {
        tripped := true;
        Interfere();
        MaskAllOutputsSafely(true);
      } else {
        Interfere();
        nvic := true;
        Preempt();
      }
    }

    /** thermalConfigure() and configureFaultProtection(): either may trip on the spot. */
    method ReconfigureTripSources(faultProtectionChanged: bool) returns (active: bool, noSample: bool)
      requires Outside()
      modifies this
      ensures Outside() && ForegroundKept() && (old(tripped) ==> tripped) && (old(outen) == {} ==> outen == {})
      ensures faultProtectionChanged && active ==> tripped && outen == {}
      ensures noSample ==> outen == {} && outInhibited && (old(!outInhibited) ==> tripped)
      ensures calm ==> Calm() && (outen == old(outen))
    {
      hide Outside();
      active := AdverseReading();
      if faultProtectionChanged && active { TripHere(); }
      noSample := ThermalConfigure();
    }

    /** thermalConfigure() without a first sample trips before it masks. */
    method ThermalConfigure() returns (noSample: bool)
      requires Outside()
      modifies this
      ensures Outside() && ForegroundKept() && (old(tripped) ==> tripped) && (old(outen) == {} ==> outen == {})
      ensures noSample ==> outen == {} && outInhibited && (old(!outInhibited) ==> tripped)
      ensures calm ==> !noSample && Calm() && outen == old(outen)
    {
      noSample := AdverseReading();
      if noSample && !outInhibited {
        tripped := true;
        Interfere();
        MaskAllOutputsSafely(true);
      }
    }

    /** faultTripIsr() called from the foreground. */
    method TripHere()
      requires Outside()
      modifies this
      ensures Outside() && ForegroundKept() && tripped && outen == {}
    {
      MaskAllOutputsSafely(true);
      tripped := true;
      Preempt();
    }

    /** applyPwmConfig(): applying settings is never an acknowledgement of a trip.  In a calm
        environment settings that changed come into force, and nothing else does. */
    method ApplyPwmConfig(pwmChanged: bool, currentLimitChanged: bool, faultProtectionChanged: bool,
                          newMask: set<int>, mode: LimitMode)
      requires Outside() && newMask <= Cells
      modifies this
      ensures Outside()
      ensures restart == old(restart) && hardware == old(hardware) && provisioning == old(provisioning)
      ensures old(tripped) ==> tripped && outen == {}
      ensures old(tripped || restart || hardware || provisioning) ==> outen == {} && outInhibited
      ensures calm ==>
                if old(tripped || restart || hardware || provisioning || (!valid && !pwmChanged)) then outen == {}
                else if !pwmChanged && !currentLimitChanged && !faultProtectionChanged then outen == old(outen)
                else outen == if pwmChanged || currentLimitChanged || old(Sound()) then Modules else {}
      ensures calm && outen != {} && pwmChanged ==> invMask == newMask
      ensures calm && outen != {} && (pwmChanged || currentLimitChanged) ==>
                (armed <==> mode == Latching) && (mode != NoLimit ==> route1 && route2)
    {
      Reconfigure(pwmChanged, currentLimitChanged, faultProtectionChanged, newMask, mode);
      Preempt();
      if tripped || restart || hardware || provisioning || !valid {
        MaskAllOutputsSafely(true);
      } else if pwmChanged || currentLimitChanged || faultProtectionChanged {
        var gapTrips: nat :| calm ==> gapTrips == 0;
        var _, _, _ := ClearFaultTrip(false, gapTrips);
      }
    }

    /** Everything but the closing release. */
    method Reconfigure(pwmChanged: bool, currentLimitChanged: bool, faultProtectionChanged: bool,
                       newMask: set<int>, mode: LimitMode)
      requires Outside() && newMask <= Cells
      modifies this
      ensures Outside() && (old(tripped) ==> tripped && outen == {})
      ensures restart == old(restart) && hardware == old(hardware) && provisioning == old(provisioning)
      ensures calm == old(calm) && (invMask == if pwmChanged then newMask else old(invMask))
      ensures pwmChanged || currentLimitChanged || faultProtectionChanged ==> outen == {}
      ensures calm ==> tripped == old(tripped) && valid == (pwmChanged || old(valid))
      ensures calm ==> Sound() == (pwmChanged || currentLimitChanged || old(Sound()))
      ensures calm && !pwmChanged && !currentLimitChanged && !faultProtectionChanged ==> outen == old(outen)
      ensures calm && (pwmChanged || currentLimitChanged) ==>
                (armed <==> mode == Latching) && (mode != NoLimit ==> route1 && route2)
    {
      if pwmChanged || currentLimitChanged || faultProtectionChanged { MaskAllOutputsSafely(true); }
      var _, _ := ReconfigureTripSources(faultProtectionChanged);
      if pwmChanged { ConfigurePwm(newMask); }
      if currentLimitChanged || pwmChanged { var _, _ := AcmpConfigure(mode); }
    }

    // -------------------------------------------------------------------- whole runs

    /** Power-on: every driver disconnected, protection not yet configured. */
    constructor ()
      ensures Outside() && outen == {} && outInhibited && provisioning
      ensures !tripped && !restart && !hardware && valid && !ready && !armed && gen == 0 && pol == invMask == {}
      ensures !route1 && !route2 && !fie2 && !f1 && !f2 && !pend && !nvic
    {
      outen, pol, invMask := {}, {}, {};
      outInhibited, tripped, restart, hardware, provisioning, valid := true, false, false, false, true, true;
      quiet, calm := false, false;
      gen, irqOff, ready, armed, route1, route2, fie2 := 0, false, false, false, false, false, false;
      f1, f2, pend, nvic := false, false, false, false;
      total, sampledAt, skew, glitch, pulsed := 0, 0, 0, false, false;
    }

    method Serve(r: Request)
      requires Outside() && r.WellFormed()
      modifies this
      ensures Outside()
      ensures !r.Hardware? ==> hardware == old(hardware)
      ensures !r.Provisioning? ==> provisioning == old(provisioning)
      ensures !r.Restart? && !(r.Clear? && r.operatorRequest) ==> restart == old(restart)
      ensures r.Restart? ==> restart == r.inhibit && (r.inhibit ==> outen == {})
      ensures r.Hardware? ==> hardware == r.inhibit && (r.inhibit ==> outen == {})
      ensures r.Provisioning? ==> provisioning == r.inhibit && (r.inhibit ==> outen == {})
      ensures r.OtaSafeState? ==> outen == {}
      ensures r.Apply? && old(tripped) ==> tripped && outen == {}
      ensures r.Apply? && r.pwm && calm && outen != {} ==> invMask == r.newMask
      ensures r.Clear? && old(tripped) && !r.operatorRequest ==> tripped
      ensures r.Clear? && calm && old(!hardware && !provisioning && valid && ready && tripped) && r.operatorRequest ==>
                outen == Modules
    {
      match r
      case Clear(operatorRequest) =>
        var gapTrips: nat := *;
        var _, _, _ := ClearFaultTrip(operatorRequest, gapTrips);
      case Restart(inhibit) => SetRestartInhibit(inhibit);
      case Hardware(inhibit) => SetHardwareInhibit(inhibit);
      case Provisioning(inhibit) => SetProvisioningInhibit(inhibit);
      case Apply(pwm, limit, fault, newMask, mode) => ApplyPwmConfig(pwm, limit, fault, newMask, mode);
      case OtaSafeState => MaskAllOutputsSafely(true);
    }

    /** One request and what interferes after it. */
    method Turn(r: Request)
      requires Outside() && r.WellFormed()
      modifies this
      ensures Outside()
      ensures hardware == if r.Hardware? then r.inhibit else old(hardware)
      ensures provisioning == if r.Provisioning? then r.inhibit else old(provisioning)
      ensures r.Inhibits() ==> outen == {}
    {
      calm := *;
      Serve(r);
      calm := false;
      Preempt();
    }

    /** Any requests in any order, with any interference inside and between them. */
    method Run(requests: seq<Request>)
      requires Outside() && forall i | 0 <= i < |requests| :: requests[i].WellFormed()
      modifies this
      ensures Outside()
      ensures outen != {} ==> outen == Modules && InterlocksClear() && total == sampledAt && pol == invMask && quiet
      ensures !glitch
      ensures hardware == HardwareAfter(requests, old(hardware))
      ensures provisioning == ProvisioningAfter(requests, old(provisioning))
      ensures requests != [] && requests[|requests| - 1].Inhibits() ==> outen == {}
    {
      for i := 0 to |requests|
        invariant Outside()
        invariant hardware == HardwareAfter(requests[..i], old(hardware))
        invariant provisioning == ProvisioningAfter(requests[..i], old(provisioning))
        invariant i > 0 && requests[i - 1].Inhibits() ==> outen == {}
      {
        Turn(requests[i]);
        assert requests[..i + 1][..i] == requests[..i];
      }
      assert requests[..|requests|] == requests;
    }
  }

  /** What was last asked of an inhibit stands: only its own setter moves it. */
  function HardwareAfter(requests: seq<Request>, was: bool): bool {
    if requests == [] then was
    else
      var last := requests[|requests| - 1];
      if last.Hardware? then last.inhibit else HardwareAfter(requests[..|requests| - 1], was)
  }

  function ProvisioningAfter(requests: seq<Request>, was: bool): bool {
    if requests == [] then was
    else
      var last := requests[|requests| - 1];
      if last.Provisioning? then last.inhibit else ProvisioningAfter(requests[..|requests| - 1], was)
  }

  /** What the foreground may ask for while control is outside. */
  datatype Request =
    | Clear(operatorRequest: bool)
    | Restart(inhibit: bool)
    | Hardware(inhibit: bool)
    | Provisioning(inhibit: bool)
    | Apply(pwm: bool, limit: bool, fault: bool, newMask: set<int>, mode: LimitMode)
    | OtaSafeState
  {
    predicate WellFormed() {
      Apply? ==> newMask <= Cells
    }

    /** Asks for the dark. */
    predicate Inhibits() {
      OtaSafeState? || ((Restart? || Hardware? || Provisioning?) && inhibit)
    }
  }

  lemma NextGeneration(total: nat, skew: int)
    ensures ((total - skew) % WORD + 1) % WORD == (total + 1 - skew) % WORD
  {
  }

  /** After n masks vFaultGeneration reads as sampled exactly when n is a multiple of 2^32. */
  lemma GenerationCountsMasks(sampled: nat, n: nat)
    requires sampled < WORD
    ensures (sampled + n) % WORD == sampled <==> n % WORD == 0
  {
    assert (sampled + n) % WORD == (sampled + n % WORD) % WORD by {
      assert n == WORD * (n / WORD) + n % WORD;
      assert (sampled + n) == WORD * (n / WORD) + (sampled + n % WORD);
    }
  }
}

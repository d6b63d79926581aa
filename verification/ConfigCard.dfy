/** loadConfiguration and saveConfiguration as the firmware runs them: file operation by file
    operation on one card, returning early where the source does, and stopping wherever the
    supply does.  Each is proved to run the operation list that ConfigStore reasons about. */
module ConfigCard {
  import opened ConfigStore

  datatype Outcome = PowerLost | Returned(ok: bool)

  class Card {
    var disk: Disk
    var power: nat              // file operations the supply still lasts for
    var configGeneration: Word32
    var config: Option<Payload> // the configuration in RAM, once one was loaded or saved

    /** Power-on: RAM is at its initial values. */
    constructor (disk: Disk, power: nat)
      ensures this.disk == disk && this.power == power && configGeneration == 0 && config == None
    {
      this.disk, this.power := disk, power;
      configGeneration, config := 0, None;
    }

    method Do(op: Op) returns (alive: bool)
      modifies this`disk, this`power
      ensures alive == (old(power) > 0)
      ensures power == if alive then old(power) - 1 else 0
      ensures disk == if alive then Step(old(disk), op) else old(disk)
    {
      alive := power > 0;
      if alive {
        power := power - 1;
        disk := Step(disk, op);
      }
    }

    /** Runs one operation as number |done| of `ops`. */
    method Perform(op: Op, ghost d: Disk, ghost ops: seq<Op>, ghost k: nat, ghost p: nat) returns (alive: bool)
      requires k < |ops| && ops[k] == op && disk == Run(d, ops[..k]) && p == power + k
      modifies this`disk, this`power
      ensures alive == (p > k) && power == (if alive then old(power) - 1 else 0)
      ensures alive ==> disk == Run(d, ops[..k + 1])
      ensures !alive ==> disk == Run(d, Cut(ops, p))
    {
      RunSnoc(d, ops, k);
      assert p <= k ==> Cut(ops, p) == ops[..k];
      alive := Do(op);
    }

    /** The firmware is running on this card, and knows the established configuration's generation. */
    ghost predicate Runs(m: Machine)
      reads this
    {
      m.Running? && disk == m.disk && configGeneration == GenerationOf(m.base)
    }

    /** The call took the card from m to m': off if the power went, else running on. */
    ghost predicate Reached(m': Machine, out: Outcome)
      reads this
    {
      disk == m'.disk && (out.PowerLost? <==> m'.Off?) && (m'.Running? ==> Runs(m'))
    }

    /** saveConfiguration() of the next version is the save of the history. */
    method SaveNext(text: string, fault: SaveFault, m: Machine) returns (out: Outcome)
      requires Runs(m)
      modifies this
      ensures Reached(Next(m, Save(text, fault, old(power))), out)
    {
      hide SaveOps, Run, SaveCut, Stored, NextGeneration;
      var p := Payload(NextVersion(m.base), text);
      WrittenDocument(m.base, p);
      out := SaveConfiguration(p, fault);
    }

    /** loadConfiguration() after power-on is the boot of the history. */
    method LoadAtBoot(fault: BootFault, ghost m: Machine, ghost lo: nat) returns (out: Outcome)
      requires m.Off? && m.disk == disk && Safe(m, lo) && configGeneration == 0
      modifies this
      ensures Reached(Next(m, Boot(fault, old(power))), out)
    {
      hide BootOps, Run, BootCut, Stored, PickFrom;
      PickedGeneration(m.disk, lo);
      out := LoadConfiguration(fault);
      assert out.Returned? && out.ok == false ==> Pick(m.disk) == None;
    }

    method SaveConfiguration(p: Payload, fault: SaveFault) returns (out: Outcome)
      modifies this
      ensures var doc := Doc(NextGeneration(old(configGeneration)), p);
              var ops := SaveOps(old(disk), doc, fault);
              && disk == SaveCut(old(disk), doc, fault, old(power))
              && out == (if old(power) < |ops| then PowerLost else Returned(Acknowledged(old(disk), fault)))
      ensures configGeneration ==
                if out == Returned(true) then NextGeneration(old(configGeneration)) else old(configGeneration)
      ensures config == if out == Returned(true) then Some(p) else old(config)
    {
      hide Step, SaveState, SaveOps, Run, Stored;
      var doc := Doc(NextGeneration(configGeneration), p);
      ghost var d, ops, pw := disk, SaveOps(disk, doc, fault), power;
      SaveOpsShape(d, doc, fault);
      RunAll(d, ops);
      var alive := Perform(Remove(Tmp), d, ops, 0, pw);
      if !alive { return PowerLost; }
      alive := Perform(Create(Tmp), d, ops, 1, pw);
      if !alive { return PowerLost; }
      if fault.WriteFails? {
        // a failed write or a failed read-back verification
        alive := Perform(Remove(Tmp), d, ops, 2, pw);
        return if alive then Returned(false) else PowerLost;
      }
      alive := Perform(Fill(Tmp, doc), d, ops, 2, pw);
      if !alive { return PowerLost; }
      alive := Perform(Remove(Bak), d, ops, 3, pw);
      if !alive { return PowerLost; }
      StillLive(d, doc, fault);
      var hadLive := Live in disk;
      if hadLive {
        if fault.KeepLiveFails? { return Returned(false); }
        alive := Perform(Rename(Live, Bak), d, ops, 4, pw);
        if !alive { return PowerLost; }
      }
      if fault.SwapFails? {
        if hadLive && fault.restored {
          alive := Perform(Rename(Bak, Live), d, ops, 5, pw);
          if !alive { return PowerLost; }
        }
        return Returned(false);
      }
      alive := Perform(Rename(Tmp, Live), d, ops, if hadLive then 5 else 4, pw);
      if !alive { return PowerLost; }
      configGeneration, config := doc.gen, Some(p);
      out := Returned(true);
    }

    /** Which operation comes when, and how many there are. */
    lemma SaveOpsShape(d: Disk, f: File, fault: SaveFault)
      ensures var ops := SaveOps(d, f, fault);
              && |ops| >= 3 && ops[0] == Remove(Tmp) && ops[1] == Create(Tmp)
              && (fault.WriteFails? ==> |ops| == 3 && ops[2] == Remove(Tmp))
              && (!fault.WriteFails? ==> |ops| >= 4 && ops[2] == Fill(Tmp, f) && ops[3] == Remove(Bak))
              && (fault.KeepLiveFails? && Live in d ==> |ops| == 4)
              && (fault.SwapFails? && Live !in d ==> |ops| == 4)
              && ((fault.NoFault? || fault.KeepLiveFails?) && Live !in d ==> |ops| == 5 && ops[4] == Rename(Tmp, Live))
              && ((fault.NoFault? || fault.SwapFails?) && Live in d ==> |ops| >= 5 && ops[4] == Rename(Live, Bak))
              && (fault.NoFault? && Live in d ==> |ops| == 6 && ops[5] == Rename(Tmp, Live))
              && (fault == SwapFails(true) && Live in d ==> |ops| == 6 && ops[5] == Rename(Bak, Live))
              && (fault == SwapFails(false) && Live in d ==> |ops| == 5)
    {
    }

    lemma RunAll(d: Disk, ops: seq<Op>)
      ensures Run(d, ops[..0]) == d
      ensures forall p: nat | p >= |ops| :: Run(d, Cut(ops, p)) == Run(d, ops[..|ops|])
    {
      assert ops[..0] == [] && ops[..|ops|] == ops;
    }

    /** The first four operations of a save do not touch the live file. */
    lemma StillLive(d: Disk, f: File, fault: SaveFault)
      requires !fault.WriteFails?
      ensures |SaveOps(d, f, fault)| >= 4
      ensures Live in Run(d, SaveOps(d, f, fault)[..4]) <==> Live in d
    {
      SaveStateIsRun(d, f, fault, 4);
    }

    method LoadConfiguration(fault: BootFault) returns (out: Outcome)
      modifies this
      ensures var n := Pick(old(disk)); var ops := BootOps(old(disk), n, fault);
              && disk == BootCut(old(disk), fault, old(power))
              && out == (if old(power) < |ops| then PowerLost else Returned(n.Some?))
              && (n.Some? ==> configGeneration == old(disk)[n.value].gen && config == Some(old(disk)[n.value].payload))
              && (n == None ==> configGeneration == old(configGeneration) && config == old(config))
    {
      hide Step, BootState;
      var best: Option<Name> := None;
      for i := 0 to 3
        invariant best == PickFrom(disk, i)
        invariant disk == old(disk) && power == old(power)
        invariant configGeneration == old(configGeneration) && config == old(config)
      {
        var n := Candidates[i];
        if HasDoc(disk, n) && (best == None || GenerationNewer(disk[n].gen, disk[best.value].gen)) {
          best := Some(n);
        }
      }
      ghost var d, ops, pw := disk, BootOps(disk, best, fault), power;
      assert ops[..0] == [];
      assert ops[..|ops|] == ops;
      if best == None { return Returned(false); }
      configGeneration, config := disk[best.value].gen, Some(disk[best.value].payload);
      if best == Some(Live) { return Returned(true); }
      var alive := Perform(Remove(Bad), d, ops, 0, pw);
      if !alive { return PowerLost; }
      BadGone(d, fault);
      var hadLive := Live in disk && !fault.QuarantineFails?;
      if hadLive {
        alive := Perform(Rename(Live, Bad), d, ops, 1, pw);
        if !alive { return PowerLost; }
      }
      if !fault.PromoteFails? {
        alive := Perform(Rename(best.value, Live), d, ops, if hadLive then 2 else 1, pw);
        if !alive { return PowerLost; }
      }
      out := Returned(true);
    }

    lemma BadGone(d: Disk, fault: BootFault)
      requires Pick(d).Some? && Pick(d) != Some(Live)
      ensures |BootOps(d, Pick(d), fault)| >= 1
      ensures Live in Run(d, BootOps(d, Pick(d), fault)[..1]) <==> Live in d
    {
      BootStateIsRun(d, fault, 1);
    }
  }

  /** The picked document's generation is that of its version. */
  lemma PickedGeneration(d: Disk, lo: nat)
    requires Consistent(d, lo)
    ensures Pick(d).Some? ==> d[Pick(d).value].gen == GenerationOf(Picked(d))
  {
    assert Candidates[0] == Live && Candidates[1] == Tmp && Candidates[2] == Bak;
  }

  /** A history of boots, saves and power losses on one card, the RAM new at every boot: what the
      methods leave is what the history says, so the next load finds the newest configuration. */
  method Replay(m: Machine, es: seq<Event>, ghost lo: nat) returns (disk: Disk)
    requires m.Off? && Safe(m, lo) && AllTolerated(m, es) && lo <= NextVersion(m.base) && Windowed(m, es, lo)
    ensures var end := Exec(m, es);
            && disk == end.disk
            && (Picked(disk) == end.base || (end.last.Some? && Picked(disk) == end.last))
            && NoOlder(m.base, Picked(disk))
  {
    hide Next, Safe, Tolerated, Floor, Picked;
    LoadReturnsNewest(m, es, lo);
    var now := m;
    ghost var floor: nat := lo;
    var card := new Card(m.disk, 0);
    for i := 0 to |es|
      invariant fresh(card) && card.disk == now.disk && (now.Running? ==> card.Runs(now))
      invariant Safe(now, floor) && AllTolerated(now, es[i..])
      invariant floor <= NextVersion(now.base) && Windowed(now, es[i..], floor)
      invariant Exec(now, es[i..]) == Exec(m, es)
    {
      assert es[i..][0] == es[i] && es[i..][1..] == es[i + 1..];
      FloorMoves(now, es[i], floor);
      card := Happen(card, now, es[i], floor);
      now, floor := Next(now, es[i]), Floor(now, es[i], floor);
    }
    disk := card.disk;
  }

  /** One event. */
  method Happen(card: Card, m: Machine, e: Event, ghost lo: nat) returns (after: Card)
    requires card.disk == m.disk && (m.Running? ==> card.Runs(m)) && Safe(m, lo)
    modifies card
    ensures after == card || fresh(after)
    ensures after.disk == Next(m, e).disk && (Next(m, e).Running? ==> after.Runs(Next(m, e)))
  {
    hide Safe, Stored;
    after := card;
    match e
    case Boot(fault, power) =>
      if m.Off? {
        after := new Card(card.disk, power);
        var _ := after.LoadAtBoot(fault, m, lo);
      }
    case Save(text, fault, power) =>
      if m.Running? {
        after.power := power;
        var _ := after.SaveNext(text, fault, m);
      }
    case PowerOff =>
  }
}

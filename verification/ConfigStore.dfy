/** src/config_json.cpp: the live/tmp/bak protocol that keeps one complete configuration
    on the card through power loss at any file operation.

    A document is what readConfigDocument accepts; anything it rejects is Torn.  Each save
    carries a version, its true position in the history.  The code never reads it: it only
    sees the 32-bit generation stored beside the payload. */
module ConfigStore {

  datatype Option<T> = None | Some(value: T)

  datatype Name = Live | Tmp | Bak | Bad

  datatype Payload = Payload(version: nat, text: string)

  datatype File = Torn | Doc(gen: Word32, payload: Payload)

  type Disk = map<Name, File>

  // ---------------------------------------------------------- 32-bit generations

  const TWO32 := 0x1_0000_0000
  const TWO31 := 0x8000_0000

  type Word32 = g: nat | g < 0x1_0000_0000

  /** Versions further apart than this can no longer be told apart by their generations. */
  const WINDOW := TWO31 - 2

  /** The generation of version v: 32 bits, zero reserved for pre-integrity files. */
  function Stored(v: nat): (g: Word32)
    ensures g == 0 <==> v == 0
  {
    if v == 0 then 0 else (v - 1) % (TWO32 - 1) + 1
  }

  function NextGeneration(g: Word32): Word32 {
    var n := (g + 1) % TWO32;
    if n == 0 then 1 else n
  }

  /** `static_cast<int32_t>(candidate - current) > 0` */
  predicate GenerationNewer(candidate: Word32, current: Word32) {
    0 < (candidate - current) % TWO32 < TWO31
  }

  lemma NextIsStored(v: nat)
    ensures NextGeneration(Stored(v)) == Stored(v + 1)
  {
    if v > 0 {
      var m := TWO32 - 1;
      if (v - 1) % m == m - 1 { assert v % m == 0; } else { assert v % m == (v - 1) % m + 1; }
    }
  }

  /** Within the window the modular comparison is the comparison of versions. */
  lemma NewerIffLater(s: nat, t: nat)
    requires s <= t + WINDOW && t <= s + WINDOW
    ensures GenerationNewer(Stored(s), Stored(t)) <==> s > t
  {
  }

  /** One version beyond the window the comparison already inverts, when the counter wraps. */
  lemma WindowIsTight()
    ensures var t := TWO32 - 1; var s := t + WINDOW + 1;
            s > t && !GenerationNewer(Stored(s), Stored(t))
  {
  }

  // ------------------------------------------------------------- file operations

  /** One card operation; it completes or, on power loss, does not happen.  A file being
      written is Torn from its creation to its close. */
  datatype Op = Remove(n: Name) | Create(n: Name) | Fill(n: Name, f: File) | Rename(from: Name, to: Name)

  /** Renames fail, changing nothing, when the target exists or the source does not. */
  function Step(d: Disk, op: Op): Disk {
    match op
    case Remove(n) => d - {n}
    case Create(n) => d[n := Torn]
    case Fill(n, f) => d[n := f]
    case Rename(a, b) => if a in d && b !in d then (d - {a})[b := d[a]] else d
  }

  function Run(d: Disk, ops: seq<Op>): Disk
    decreases |ops|
  {
    if ops == [] then d else Run(Step(d, ops[0]), ops[1..])
  }

  /** The operations that complete when power lasts for `power` of them. */
  function Cut(ops: seq<Op>, power: nat): seq<Op> {
    if power < |ops| then ops[..power] else ops
  }

  // ---------------------------------------------------- what loadConfiguration picks

  const Candidates := [Live, Tmp, Bak]

  predicate HasDoc(d: Disk, n: Name) { n in d && d[n].Doc? }

  /** The candidate loop: the first document, replaced only by a newer one. */
  function PickFrom(d: Disk, i: nat): Option<Name>
    requires i <= 3
    ensures PickFrom(d, i).Some? ==> HasDoc(d, PickFrom(d, i).value) && PickFrom(d, i).value != Bad
  {
    if i == 0 then None
    else
      var best := PickFrom(d, i - 1);
      var n := Candidates[i - 1];
      if HasDoc(d, n) && (best == None || GenerationNewer(d[n].gen, d[best.value].gen)) then Some(n) else best
  }

  function Pick(d: Disk): (n: Option<Name>)
    ensures n.Some? ==> HasDoc(d, n.value) && n.value != Bad
  {
    PickFrom(d, 3)
  }

  function Picked(d: Disk): Option<Payload> {
    match Pick(d)
    case None => None
    case Some(n) => Some(d[n].payload)
  }

  // ------------------------------------------------------------- the two protocols

  /** Errors the card may report without losing power. */
  datatype SaveFault = NoFault | WriteFails | KeepLiveFails | SwapFails(restored: bool)
  datatype BootFault = BootOk | QuarantineFails | PromoteFails

  /** The operations of saveConfiguration. */
  function SaveOps(d: Disk, f: File, fault: SaveFault): seq<Op> {
    var start := [Remove(Tmp), Create(Tmp)];
    if fault.WriteFails? then start + [Remove(Tmp)]
    else
      var kept := start + [Fill(Tmp, f), Remove(Bak)];
      if Live !in d then if fault.NoFault? || fault.KeepLiveFails? then kept + [Rename(Tmp, Live)] else kept
      else
        match fault
        case KeepLiveFails => kept
        case SwapFails(restored) => kept + [Rename(Live, Bak)] + if restored then [Rename(Bak, Live)] else []
        case _ => kept + [Rename(Live, Bak), Rename(Tmp, Live)]
  }

  /** The operations of loadConfiguration after it has picked `n`. */
  function BootOps(d: Disk, n: Option<Name>, fault: BootFault): seq<Op> {
    if n == None || n == Some(Live) then []
    else
      var quarantine := [Remove(Bad)] + if Live in d && !fault.QuarantineFails? then [Rename(Live, Bad)] else [];
      if fault.PromoteFails? then quarantine else quarantine + [Rename(n.value, Live)]
  }

  /** saveConfiguration returns true. */
  predicate Acknowledged(d: Disk, fault: SaveFault) {
    fault.NoFault? || (fault.KeepLiveFails? && Live !in d)
  }

  /** configGeneration while `base` is established: zero at first boot. */
  function GenerationOf(base: Option<Payload>): Word32 {
    match base case None => 0 case Some(p) => Stored(p.version)
  }

  /** The document saveConfiguration writes is the next version's, when configGeneration is
      the generation of the established configuration. */
  lemma WrittenDocument(base: Option<Payload>, p: Payload)
    requires p.version == NextVersion(base)
    ensures Doc(NextGeneration(GenerationOf(base)), p) == DocOf(p)
  {
    NextIsStored(p.version - 1);
  }

  // ------------------------------------------------------------------- invariants

  /** Every readable document carries the generation of its version, inside the window. */
  ghost predicate Consistent(d: Disk, lo: nat) {
    forall n | n in Candidates && HasDoc(d, n) ::
      d[n].gen == Stored(d[n].payload.version) && lo <= d[n].payload.version <= lo + WINDOW
  }

  /** `top` is the newest readable document among the names `ns` (None: there is none). */
  ghost predicate Newest(d: Disk, ns: set<Name>, top: Option<Payload>) {
    match top
    case None => forall n | n in ns :: !HasDoc(d, n)
    case Some(p) =>
      && (exists n | n in ns :: HasDoc(d, n) && d[n].payload == p)
      && forall n | n in ns && HasDoc(d, n) :: d[n].payload == p || d[n].payload.version < p.version
  }

  const All := {Live, Tmp, Bak}

  function NextVersion(base: Option<Payload>): nat {
    match base case None => 1 case Some(p) => p.version + 1
  }

  /** `last` is a save begun after `base` was established and not acknowledged. */
  ghost predicate Follows(base: Option<Payload>, last: Option<Payload>) {
    last.Some? ==> last.value.version == NextVersion(base)
  }

  /** What the card holds while the firmware runs: the established configuration is in
      live or bak; tmp may hold the last failed save. */
  ghost predicate Idle(d: Disk, base: Option<Payload>, last: Option<Payload>, lo: nat) {
    && Consistent(d, lo) && Follows(base, last)
    && Newest(d, {Live, Bak}, base)
    && (HasDoc(d, Tmp) ==> last == Some(d[Tmp].payload) || base == Some(d[Tmp].payload)
                           || (base.Some? && d[Tmp].payload.version < base.value.version))
  }

  /** What a power loss may leave: the newest document is the established one or the one
      save begun after it. */
  ghost predicate Recoverable(d: Disk, base: Option<Payload>, last: Option<Payload>, lo: nat) {
    && Consistent(d, lo) && Follows(base, last)
    && (Newest(d, All, base) || (last.Some? && Newest(d, All, last)))
  }

  /** The candidate loop finds the newest document. */
  lemma PickNewest(d: Disk, top: Option<Payload>, lo: nat)
    requires Consistent(d, lo) && Newest(d, All, top)
    ensures Picked(d) == top
  {
    assert forall n {:trigger HasDoc(d, n)} | n in Candidates :: n in All;
    forall n, m | n in Candidates && m in Candidates && HasDoc(d, n) && HasDoc(d, m)
      ensures GenerationNewer(d[n].gen, d[m].gen) <==> d[n].payload.version > d[m].payload.version
    {
      NewerIffLater(d[n].payload.version, d[m].payload.version);
    }
    assert Candidates[0] == Live && Candidates[1] == Tmp && Candidates[2] == Bak;
    assert PickFrom(d, 0) == None;
    var p1, p2, p3 := PickFrom(d, 1), PickFrom(d, 2), PickFrom(d, 3);
  }

  lemma {:induction false} RunSnoc(d: Disk, ops: seq<Op>, i: nat)
    requires i < |ops|
    ensures Run(d, ops[..i + 1]) == Step(Run(d, ops[..i]), ops[i])
    decreases i
  {
    if i == 0 {
      assert ops[..1] == [ops[0]] && ops[..0] == [];
    } else {
      RunSnoc(Step(d, ops[0]), ops[1..], i - 1);
      assert ops[..i + 1][1..] == ops[1..][..i] && ops[..i][1..] == ops[1..][..i - 1];
    }
  }

  // ---------------------------------------------------------------- crash safety

  /** The state after `power` operations of a save. */
  function SaveCut(d: Disk, doc: File, fault: SaveFault, power: nat): Disk {
    Run(d, Cut(SaveOps(d, doc, fault), power))
  }

  function BootCut(d: Disk, fault: BootFault, power: nat): Disk {
    Run(d, Cut(BootOps(d, Pick(d), fault), power))
  }

  function DocOf(p: Payload): File { Doc(Stored(p.version), p) }

  /** Every readable document of s is the new one or one that live or bak held in d. */
  ghost predicate DocsFrom(s: Disk, d: Disk, new_: Payload) {
    forall n | n in All && HasDoc(s, n) ::
      s[n] == DocOf(new_) || (HasDoc(d, Live) && s[n] == d[Live]) || (HasDoc(d, Bak) && s[n] == d[Bak])
  }

  /** Once the new document is complete, it is the newest wherever the renames moved it. */
  lemma NewWins(d: Disk, s: Disk, base: Option<Payload>, last: Option<Payload>, lo: nat, new_: Payload)
    requires Idle(d, base, last, lo)
    requires new_.version == NextVersion(base) && lo <= new_.version <= lo + WINDOW
    requires DocsFrom(s, d, new_) && exists n | n in All :: n in s && s[n] == DocOf(new_)
    ensures Consistent(s, lo) && Newest(s, All, Some(new_))
  {
    assert forall n | n in Candidates :: n in All;
    assert Live in Candidates && Bak in Candidates by { assert Candidates[0] == Live && Candidates[2] == Bak; }
    var m :| m in All && m in s && s[m] == DocOf(new_);
    assert HasDoc(s, m);
  }

  /** While live and bak are untouched and tmp is unreadable, the old one is the newest. */
  lemma OldKept(d: Disk, s: Disk, base: Option<Payload>, last: Option<Payload>, lo: nat)
    requires Idle(d, base, last, lo)
    requires !HasDoc(s, Tmp)
    requires forall n | n in {Live, Bak} :: HasDoc(s, n) == HasDoc(d, n) && (HasDoc(d, n) ==> s[n] == d[n])
    ensures Consistent(s, lo) && Newest(s, All, base) && Newest(s, {Live, Bak}, base)
  {
    assert forall n | n in Candidates :: n in All;
    if base.Some? {
      var m :| m in {Live, Bak} && HasDoc(d, m) && d[m].payload == base.value;
      assert HasDoc(s, m) && m in All;
    }
  }

  /** Before anything happens the newest is the established one or the last failed save. */
  lemma IdleRecoverable(d: Disk, base: Option<Payload>, last: Option<Payload>, lo: nat)
    requires Idle(d, base, last, lo)
    ensures Recoverable(d, base, last, lo)
  {
    if HasDoc(d, Tmp) && last == Some(d[Tmp].payload) && last != base {
      assert Tmp in All;
      assert Newest(d, All, last);
    } else {
      if base.Some? {
        var m :| m in {Live, Bak} && HasDoc(d, m) && d[m].payload == base.value;
        assert m in All;
      }
      assert Newest(d, All, base);
    }
  }

  /** The state after i operations of a save, in closed form. */
  function SaveState(d: Disk, f: File, fault: SaveFault, i: nat): Disk {
    var s1 := d - {Tmp};
    if i == 0 then d
    else if i == 1 then s1
    else if i == 2 then s1[Tmp := Torn]
    else if fault.WriteFails? then s1
    else if i == 3 then s1[Tmp := f]
    else
      var s4 := (d - {Tmp, Bak})[Tmp := f];
      if i == 4 then s4
      else if Live !in d then (d - {Tmp, Bak})[Live := f]
      else
        var kept := (d - {Tmp, Bak, Live})[Bak := d[Live]];
        if i == 5 then kept[Tmp := f]
        else if fault.SwapFails? then s4
        else kept[Live := f]
  }

  lemma SaveStateStep(d: Disk, f: File, fault: SaveFault, i: nat)
    requires i < |SaveOps(d, f, fault)|
    ensures Step(SaveState(d, f, fault, i), SaveOps(d, f, fault)[i]) == SaveState(d, f, fault, i + 1)
  {
    hide PickFrom, Newest, Consistent, Run;
    var s1 := d - {Tmp};
    var s4 := (d - {Tmp, Bak})[Tmp := f];
    if i == 0 {
    } else if i == 1 {
    } else if i == 2 {
      assert s1[Tmp := Torn] - {Tmp} == s1;
      assert s1[Tmp := Torn][Tmp := f] == s1[Tmp := f];
    } else if i == 3 {
      assert s1[Tmp := f] - {Bak} == s4;
    } else if Live !in d {
      assert (s4 - {Tmp})[Live := f] == (d - {Tmp, Bak})[Live := f];
    } else {
      var kept := (d - {Tmp, Bak, Live})[Bak := d[Live]];
      if i == 4 {
        assert (s4 - {Live})[Bak := d[Live]] == kept[Tmp := f];
      } else {
        assert (kept[Tmp := f] - {Tmp})[Live := f] == kept[Live := f];
        assert (kept[Tmp := f] - {Bak})[Live := d[Live]] == s4;
      }
    }
  }

  lemma {:induction false} SaveStateIsRun(d: Disk, f: File, fault: SaveFault, i: nat)
    requires i <= |SaveOps(d, f, fault)|
    ensures Run(d, SaveOps(d, f, fault)[..i]) == SaveState(d, f, fault, i)
  {
    hide SaveOps, Step;
    var ops := SaveOps(d, f, fault);
    if i == 0 {
      assert ops[..0] == [];
    } else {
      SaveStateIsRun(d, f, fault, i - 1);
      RunSnoc(d, ops, i - 1);
      SaveStateStep(d, f, fault, i - 1);
    }
  }

  /** The established configuration is the live file, or there is none. */
  predicate LiveHolds(d: Disk, base: Option<Payload>) {
    base.Some? ==> HasDoc(d, Live) && d[Live].payload == base.value
  }

  /** Power loss after any operation of a save leaves the established configuration or the
      new one newest.  A save that completes leaves the acknowledged one established; one
      that reports failure keeps the old one established exactly when its error struck
      before the renames or the old one was the live file. */
  lemma SaveCrashSafe(d: Disk, base: Option<Payload>, last: Option<Payload>, lo: nat,
                      new_: Payload, fault: SaveFault, power: nat)
    requires Idle(d, base, last, lo)
    requires new_.version == NextVersion(base) && lo <= new_.version <= lo + WINDOW
    ensures var s := SaveCut(d, DocOf(new_), fault, power);
            && Recoverable(s, base, if power == 0 then last else Some(new_), lo)
            && (power >= |SaveOps(d, DocOf(new_), fault)| ==>
                  if Acknowledged(d, fault) then Idle(s, Some(new_), None, lo)
                  else (Idle(s, base, Some(new_), lo) <==> fault.WriteFails? || LiveHolds(d, base)))
  {
    hide PickFrom, Step, Run;
    var f := DocOf(new_);
    var ops := SaveOps(d, f, fault);
    var i := if power < |ops| then power else |ops|;
    assert Cut(ops, power) == ops[..i];
    SaveStateIsRun(d, f, fault, i);
    if i == 0 {
      IdleRecoverable(d, base, last, lo);
    } else if i <= 2 || fault.WriteFails? {
      OldKept(d, SaveState(d, f, fault, i), base, last, lo);
    } else {
      CompleteDocument(d, base, last, lo, new_, fault, i);
    }
  }

  /** The steps of a save from the moment the new document is complete on the card. */
  lemma CompleteDocument(d: Disk, base: Option<Payload>, last: Option<Payload>, lo: nat,
                         new_: Payload, fault: SaveFault, i: nat)
    requires Idle(d, base, last, lo)
    requires new_.version == NextVersion(base) && lo <= new_.version <= lo + WINDOW
    requires 3 <= i <= |SaveOps(d, DocOf(new_), fault)| && !fault.WriteFails?
    ensures var s := SaveState(d, DocOf(new_), fault, i);
            && Consistent(s, lo) && Newest(s, All, Some(new_))
            && (i == |SaveOps(d, DocOf(new_), fault)| ==>
                  if Acknowledged(d, fault) then Idle(s, Some(new_), None, lo)
                  else (Idle(s, base, Some(new_), lo) <==> LiveHolds(d, base)))
  {
    hide PickFrom, Step, Run;
    var f := DocOf(new_);
    var ops := SaveOps(d, f, fault);
    var s := SaveState(d, f, fault, i);
    assert Tmp in All && Live in All;
    assert s[if Tmp in s && s[Tmp] == f then Tmp else Live] == f;
    NewWins(d, s, base, last, lo, new_);
    if i == |ops| && Acknowledged(d, fault) {
      assert HasDoc(s, Live);
    } else if i == |ops| {
      assert HasDoc(d, Live) ==> HasDoc(s, Live) || HasDoc(s, Bak);
      RefusedSave(d, s, base, last, lo, new_);
    }
  }

  /** A save refused after its document was complete: bak is gone or holds the old live. */
  lemma RefusedSave(d: Disk, s: Disk, base: Option<Payload>, last: Option<Payload>, lo: nat, new_: Payload)
    requires Idle(d, base, last, lo) && Consistent(s, lo)
    requires new_.version == NextVersion(base)
    requires Tmp in s && s[Tmp] == DocOf(new_)
    requires forall n | n in {Live, Bak} && HasDoc(s, n) :: HasDoc(d, Live) && s[n] == d[Live]
    requires HasDoc(d, Live) ==> exists n | n in {Live, Bak} :: HasDoc(s, n)
    ensures Idle(s, base, Some(new_), lo) <==> LiveHolds(d, base)
  {
    assert Newest(s, {Live, Bak}, base) <==> LiveHolds(d, base);
  }

  /** Every step of recovery keeps the newest document; a completed recovery establishes it
      exactly when the document no longer lies in tmp alone. */
  lemma BootCrashSafe(d: Disk, top: Option<Payload>, lo: nat, fault: BootFault, power: nat)
    requires Consistent(d, lo) && Newest(d, All, top)
    ensures var s := BootCut(d, fault, power);
            && Consistent(s, lo) && Newest(s, All, top)
            && (power >= |BootOps(d, Pick(d), fault)| ==>
                  (Idle(s, top, None, lo) <==> !LeftInTmp(d, fault)))
  {
    PickNewest(d, top, lo);
    var n := Pick(d);
    var ops := BootOps(d, n, fault);
    var i := if power < |ops| then power else |ops|;
    assert Cut(ops, power) == ops[..i];
    assert ops[..0] == [];
    BootStateIsRun(d, fault, i);
    BootStateSafe(d, top, lo, fault, i);
  }

  /** The newest document is tmp alone and its promotion did not happen. */
  predicate LeftInTmp(d: Disk, fault: BootFault) {
    && Pick(d) == Some(Tmp)
    && (fault.PromoteFails? || (fault.QuarantineFails? && Live in d))
    && !(HasDoc(d, Bak) && d[Bak].payload == d[Tmp].payload)
  }

  /** The state after i operations of recovery, in closed form. */
  function BootState(d: Disk, fault: BootFault, i: nat): Disk {
    var n := Pick(d);
    var s1 := d - {Bad};
    if i == 0 || n == None || n == Some(Live) then d
    else if i == 1 then s1
    else if Live in d && !fault.QuarantineFails? then
      var s2 := (d - {Live})[Bad := d[Live]];
      if i == 2 then s2 else (s2 - {n.value})[Live := d[n.value]]
    else if Live in d then s1
    else (s1 - {n.value})[Live := d[n.value]]
  }

  lemma BootStateStep(d: Disk, fault: BootFault, i: nat)
    requires i < |BootOps(d, Pick(d), fault)|
    ensures Step(BootState(d, fault, i), BootOps(d, Pick(d), fault)[i]) == BootState(d, fault, i + 1)
  {
    hide Newest, Consistent, Run, PickFrom;
    var s1, n := d - {Bad}, Pick(d).value;
    if i == 1 && Live in d && !fault.QuarantineFails? {
      assert (s1 - {Live})[Bad := d[Live]] == (d - {Live})[Bad := d[Live]];
    } else if i == 2 {
      assert n != Bad && n != Live;
    }
  }

  lemma {:induction false} BootStateIsRun(d: Disk, fault: BootFault, i: nat)
    requires i <= |BootOps(d, Pick(d), fault)|
    ensures Run(d, BootOps(d, Pick(d), fault)[..i]) == BootState(d, fault, i)
  {
    hide BootOps, Step, PickFrom;
    var ops := BootOps(d, Pick(d), fault);
    if i == 0 {
      assert ops[..0] == [];
    } else {
      BootStateIsRun(d, fault, i - 1);
      RunSnoc(d, ops, i - 1);
      BootStateStep(d, fault, i - 1);
    }
  }

  lemma BootStateSafe(d: Disk, top: Option<Payload>, lo: nat, fault: BootFault, i: nat)
    requires Consistent(d, lo) && Newest(d, All, top) && Picked(d) == top
    requires i <= |BootOps(d, Pick(d), fault)|
    ensures var s := BootState(d, fault, i);
            && Consistent(s, lo) && Newest(s, All, top)
            && (i == |BootOps(d, Pick(d), fault)| ==>
                  (Idle(s, top, None, lo) <==> !LeftInTmp(d, fault)))
  {
    hide PickFrom, Step, Run;
    var s := BootState(d, fault, i);
    var n := Pick(d);
    if n == None || n == Some(Live) || i == 0 {
      PickedIsTop(d, s, top, lo);
    } else if Live in s && HasDoc(s, Live) && s[Live] == d[n.value] && n.value !in s {
      MovedIsTop(d, s, n.value, Live, top, lo);
    } else {
      MovedIsTop(d, s, n.value, n.value, top, lo);
      if i == |BootOps(d, n, fault)| && n == Some(Tmp) { TmpAlone(d, s, top, lo, fault); }
    }
  }

  lemma TmpAlone(d: Disk, s: Disk, top: Option<Payload>, lo: nat, fault: BootFault)
    requires Newest(d, All, top) && Picked(d) == top && Pick(d) == Some(Tmp)
    requires Consistent(d, lo) && Consistent(s, lo) && Newest(s, All, top)
    requires forall k | k in All && HasDoc(s, k) :: HasDoc(d, k) && s[k] == d[k]
    requires Bak in s <==> Bak in d
    requires Bak in d ==> s[Bak] == d[Bak]
    ensures Idle(s, top, None, lo) <==> HasDoc(d, Bak) && d[Bak].payload == d[Tmp].payload
  {
    assert Candidates[0] == Live && Candidates[1] == Tmp && Candidates[2] == Bak;
    assert PickFrom(d, 0) == None && (HasDoc(d, Live) ==> PickFrom(d, 1) == Some(Live));
    assert PickFrom(d, 2) == Some(Tmp);
    if HasDoc(d, Live) { NewerIffLater(d[Tmp].payload.version, d[Live].payload.version); }
    assert HasDoc(d, Live) ==> d[Live].payload != d[Tmp].payload;
    assert Live in All && Bak in All && Tmp in All;
  }

  /** Dropping or moving documents other than the newest leaves it the newest. */
  lemma MovedIsTop(d: Disk, s: Disk, n: Name, m: Name, top: Option<Payload>, lo: nat)
    requires Consistent(d, lo) && Newest(d, All, top)
    requires n in All && m in All && HasDoc(d, n) && top == Some(d[n].payload)
    requires HasDoc(s, m) && s[m] == d[n]
    requires forall k | k in All && HasDoc(s, k) :: k == m || (HasDoc(d, k) && s[k] == d[k])
    ensures Consistent(s, lo) && Newest(s, All, top)
  {
    assert Candidates[0] == Live && Candidates[1] == Tmp && Candidates[2] == Bak;
    assert forall k | k in Candidates :: k in All;
    assert n in Candidates && m in Candidates;
  }

  lemma PickedIsTop(d: Disk, s: Disk, top: Option<Payload>, lo: nat)
    requires Consistent(d, lo) && Newest(d, All, top) && s == d
    ensures Consistent(s, lo) && Newest(s, All, top)
  {
  }

  // -------------------------------------------------------------------- histories

  /** `base`: the configuration last acknowledged or last loaded; `last`: a save begun
      since then and not acknowledged.  Both are bookkeeping, not device state. */
  datatype Machine =
    | Running(disk: Disk, base: Option<Payload>, last: Option<Payload>)
    | Off(disk: Disk, base: Option<Payload>, last: Option<Payload>)

  /** `power` counts the file operations that still complete before the supply fails. */
  datatype Event =
    | Boot(bootFault: BootFault, power: nat)
    | Save(text: string, saveFault: SaveFault, power: nat)
    | PowerOff

  function Next(m: Machine, e: Event): Machine {
    match e
    case Boot(fault, power) =>
      if m.Running? then m
      else
        var d := BootCut(m.disk, fault, power);
        if power < |BootOps(m.disk, Pick(m.disk), fault)| then Off(d, m.base, m.last)
        else Running(d, Picked(m.disk), None)
    case Save(text, fault, power) =>
      if m.Off? then m
      else
        var p := Payload(NextVersion(m.base), text);
        var d := SaveCut(m.disk, DocOf(p), fault, power);
        if power < |SaveOps(m.disk, DocOf(p), fault)| then Off(d, m.base, if power == 0 then m.last else Some(p))
        else if Acknowledged(m.disk, fault) then Running(d, Some(p), None)
        else Running(d, m.base, Some(p))
    case PowerOff => Off(m.disk, m.base, m.last)
  }

  function Exec(m: Machine, es: seq<Event>): Machine
    decreases |es|
  {
    if es == [] then m else Exec(Next(m, es[0]), es[1..])
  }

  /** Card errors the protocol survives: any, but in the promotion of a lone tmp, and in the
      renames of a completed save that is not acknowledged, unless the live file is the
      established configuration. */
  predicate Tolerated(m: Machine, e: Event) {
    match e
    case Boot(fault, power) => m.Off? && power >= |BootOps(m.disk, Pick(m.disk), fault)| ==> !LeftInTmp(m.disk, fault)
    case Save(text, fault, power) =>
      (m.Running? && power >= |SaveOps(m.disk, DocOf(Payload(NextVersion(m.base), text)), fault)|
       && !Acknowledged(m.disk, fault) && !fault.WriteFails?) ==> LiveHolds(m.disk, m.base)
    case PowerOff => true
  }

  predicate AllTolerated(m: Machine, es: seq<Event>)
    decreases |es|
  {
    es == [] || (Tolerated(m, es[0]) && AllTolerated(Next(m, es[0]), es[1..]))
  }

  ghost predicate Safe(m: Machine, lo: nat) {
    match m
    case Running(d, base, last) => Idle(d, base, last, lo)
    case Off(d, base, last) => Recoverable(d, base, last, lo)
  }

  /** q is p itself or a strictly newer configuration. */
  predicate NoOlder(p: Option<Payload>, q: Option<Payload>) {
    p.Some? ==> q.Some? && (q == p || q.value.version > p.value.version)
  }

  lemma NextSafe(m: Machine, e: Event, lo: nat)
    requires Safe(m, lo) && Tolerated(m, e)
    requires lo <= NextVersion(m.base) && NextVersion(m.base) <= lo + WINDOW
    ensures Safe(Next(m, e), lo)
    ensures NoOlder(m.base, Next(m, e).base)
    ensures NextVersion(m.base) <= NextVersion(Next(m, e).base) <= NextVersion(m.base) + 1
    ensures m.Off? && Next(m, e).Running? ==> Next(m, e).base == m.base || (m.last.Some? && Next(m, e).base == m.last)
  {
    hide Pick, PickFrom, Step, Run, Newest, Consistent, SaveOps, BootOps, LeftInTmp;
    match e
    case Boot(fault, power) =>
      if m.Off? {
        var top := if Newest(m.disk, All, m.base) then m.base else m.last;
        PickNewest(m.disk, top, lo);
        BootCrashSafe(m.disk, top, lo, fault, power);
      }
    case Save(text, fault, power) =>
      if m.Running? {
        SaveCrashSafe(m.disk, m.base, m.last, lo, Payload(NextVersion(m.base), text), fault, power);
      }
    case PowerOff =>
      if m.Running? { IdleRecoverable(m.disk, m.base, m.last, lo); }
  }

  /** What `lo` may move up to: a save acknowledged while the live file was the established
      configuration leaves nothing older than that on the card. */
  function Floor(m: Machine, e: Event, lo: nat): nat {
    if e.Save? && m.Running? && m.base.Some? && LiveHolds(m.disk, m.base)
       && Acknowledged(m.disk, e.saveFault) && Next(m, e).Running?
    then m.base.value.version else lo
  }

  function FloorAfter(m: Machine, es: seq<Event>, lo: nat): nat
    decreases |es|
  {
    if es == [] then lo else FloorAfter(Next(m, es[0]), es[1..], Floor(m, es[0], lo))
  }

  /** At every step the next version is within the window above the floor. */
  predicate Windowed(m: Machine, es: seq<Event>, lo: nat)
    decreases |es|
  {
    es == [] || (NextVersion(m.base) <= lo + WINDOW && Windowed(Next(m, es[0]), es[1..], Floor(m, es[0], lo)))
  }

  lemma FloorMoves(m: Machine, e: Event, lo: nat)
    requires Safe(m, lo) && Tolerated(m, e)
    requires lo <= NextVersion(m.base) && NextVersion(m.base) <= lo + WINDOW
    ensures Safe(Next(m, e), Floor(m, e, lo))
    ensures lo <= Floor(m, e, lo) <= NextVersion(Next(m, e).base)
  {
    hide Pick, PickFrom, Step, Run, Newest, SaveOps, BootOps, LeftInTmp;
    NextSafe(m, e, lo);
    if Floor(m, e, lo) != lo {
      var p := Payload(NextVersion(m.base), e.text);
      var ops := SaveOps(m.disk, DocOf(p), e.saveFault);
      SaveStateIsRun(m.disk, DocOf(p), e.saveFault, |ops|);
      assert ops[..|ops|] == ops;
      WholeSaveDocs(m.disk, DocOf(p), e.saveFault);
      assert Candidates[0] == Live && Candidates[1] == Tmp && Candidates[2] == Bak;
    }
  }

  /** After an acknowledged save over a live file: it, and the former live file. */
  lemma WholeSaveDocs(d: Disk, f: File, fault: SaveFault)
    requires Acknowledged(d, fault) && Live in d
    ensures SaveState(d, f, fault, |SaveOps(d, f, fault)|) == (d - {Tmp, Bak, Live})[Bak := d[Live]][Live := f]
  {
  }

  /** Over every history of saves, power losses at any operation and reboots, of any length,
      the card stays recoverable and the established configuration never goes back. */
  lemma {:induction false} HistorySafe(m: Machine, es: seq<Event>, lo: nat)
    requires Safe(m, lo) && AllTolerated(m, es)
    requires lo <= NextVersion(m.base) && Windowed(m, es, lo)
    ensures Safe(Exec(m, es), FloorAfter(m, es, lo))
    ensures NoOlder(m.base, Exec(m, es).base)
    decreases |es|
  {
    hide Next, Idle, Recoverable, Tolerated, Floor;
    if es != [] {
      NextSafe(m, es[0], lo);
      FloorMoves(m, es[0], lo);
      HistorySafe(Next(m, es[0]), es[1..], Floor(m, es[0], lo));
    }
  }

  /** Fewer than 2^31 - 2 events never leave the window. */
  lemma {:induction false} ShortIsWindowed(m: Machine, es: seq<Event>, lo: nat)
    requires Safe(m, lo) && AllTolerated(m, es)
    requires lo <= NextVersion(m.base) && NextVersion(m.base) + |es| <= lo + WINDOW
    ensures Windowed(m, es, lo)
    decreases |es|
  {
    hide Next, Idle, Recoverable, Tolerated, Floor;
    if es != [] {
      NextSafe(m, es[0], lo);
      FloorMoves(m, es[0], lo);
      ShortIsWindowed(Next(m, es[0]), es[1..], Floor(m, es[0], lo));
    }
  }

  /** What the next loadConfiguration returns after any such history: the configuration last
      acknowledged or loaded, or the one save begun after it; never nothing once there was
      one, and never anything older than `m.base`. */
  lemma LoadReturnsNewest(m: Machine, es: seq<Event>, lo: nat)
    requires Safe(m, lo) && AllTolerated(m, es)
    requires lo <= NextVersion(m.base) && Windowed(m, es, lo)
    ensures var end := Exec(m, es);
            && (Picked(end.disk) == end.base || (end.last.Some? && Picked(end.disk) == end.last))
            && NoOlder(m.base, Picked(end.disk))
  {
    HistorySafe(m, es, lo);
    var end, lo' := Exec(m, es), FloorAfter(m, es, lo);
    if end.Running? { IdleRecoverable(end.disk, end.base, end.last, lo'); }
    var top := if Newest(end.disk, All, end.base) then end.base else end.last;
    PickNewest(end.disk, top, lo');
  }

  /** Without card errors nothing needs tolerating. */
  predicate PowerLossOnly(e: Event) {
    (e.Boot? ==> e.bootFault.BootOk?) && (e.Save? ==> e.saveFault.NoFault?)
  }

  lemma {:induction false} PowerLossAlwaysTolerated(m: Machine, es: seq<Event>)
    requires forall e | e in es :: PowerLossOnly(e)
    ensures AllTolerated(m, es)
    decreases |es|
  {
    hide Next;
    if es != [] {
      assert PowerLossOnly(es[0]);
      PowerLossAlwaysTolerated(Next(m, es[0]), es[1..]);
    }
  }

  // --------------------------------------------------- where the protocol does lose

  /** Removing tmp leaves nothing as new as p. */
  lemma TmpWasAll(s: Disk, p: Payload)
    requires forall n | n in {Live, Bak} && HasDoc(s, n) :: s[n].payload.version < p.version
    ensures !NoOlder(Some(p), Picked(s - {Tmp}))
  {
  }

  /** An error that is not tolerated leaves the newest configuration in tmp at best: power loss
      right after the next save has begun, and the established configuration is gone. */
  lemma UntoleratedLoses(m: Machine, e: Event, lo: nat, text: string)
    requires Safe(m, lo) && !Tolerated(m, e)
    requires lo <= NextVersion(m.base) && NextVersion(m.base) <= lo + WINDOW
    ensures var m1 := Next(m, e);
            m1.Running? && !NoOlder(m1.base, Picked(Next(m1, Save(text, NoFault, 1)).disk))
  {
    hide PickFrom, Step, Run, SaveOps, BootOps;
    var m1 := Next(m, e);
    match e
    case Boot(fault, power) =>
      var top := if Newest(m.disk, All, m.base) then m.base else m.last;
      PickNewest(m.disk, top, lo);
      BootLeavesTmp(m.disk, top, lo, fault);
      assert BootCut(m.disk, fault, power) == BootCut(m.disk, fault, |BootOps(m.disk, Pick(m.disk), fault)|);
      assert m1.base == top;
      LostAtOnce(m1, text);
    case Save(t, fault, power) =>
      var p := Payload(NextVersion(m.base), t);
      SaveLeavesTmp(m.disk, m.base, m.last, lo, p, fault);
      var all := |SaveOps(m.disk, DocOf(p), fault)|;
      assert SaveCut(m.disk, DocOf(p), fault, power) == SaveCut(m.disk, DocOf(p), fault, all);
      LostAtOnce(m1, text);
  }

  lemma LostAtOnce(m: Machine, text: string)
    requires m.Running? && m.base.Some?
    requires forall n | n in {Live, Bak} && HasDoc(m.disk, n) :: m.disk[n].payload.version < m.base.value.version
    ensures !NoOlder(m.base, Picked(Next(m, Save(text, NoFault, 1)).disk))
  {
    hide PickFrom, Step, Run;
    var f := DocOf(Payload(NextVersion(m.base), text));
    SaveStateIsRun(m.disk, f, NoFault, 1);
    TmpWasAll(m.disk, m.base.value);
  }

  lemma BootLeavesTmp(d: Disk, top: Option<Payload>, lo: nat, fault: BootFault)
    requires Consistent(d, lo) && Newest(d, All, top) && Picked(d) == top && LeftInTmp(d, fault)
    ensures var s := BootCut(d, fault, |BootOps(d, Pick(d), fault)|);
            forall n | n in {Live, Bak} && HasDoc(s, n) :: s[n].payload.version < top.value.version
  {
    hide PickFrom, Step, Run;
    var ops := BootOps(d, Pick(d), fault);
    assert ops[..|ops|] == ops;
    BootStateIsRun(d, fault, |ops|);
    LiveIsOlder(d, top, lo);
    assert Bak in All && Live in All;
  }

  /** When tmp is picked, a readable live file is an older one. */
  lemma LiveIsOlder(d: Disk, top: Option<Payload>, lo: nat)
    requires Consistent(d, lo) && Newest(d, All, top) && Picked(d) == top && Pick(d) == Some(Tmp)
    ensures HasDoc(d, Live) ==> d[Live].payload.version < top.value.version
  {
    assert Candidates[0] == Live && Candidates[1] == Tmp && Candidates[2] == Bak;
    assert PickFrom(d, 0) == None && (HasDoc(d, Live) ==> PickFrom(d, 1) == Some(Live));
    assert PickFrom(d, 2) == Some(Tmp);
    if HasDoc(d, Live) { NewerIffLater(d[Tmp].payload.version, d[Live].payload.version); }
  }

  lemma SaveLeavesTmp(d: Disk, base: Option<Payload>, last: Option<Payload>, lo: nat, new_: Payload, fault: SaveFault)
    requires Idle(d, base, last, lo) && !Acknowledged(d, fault) && !fault.WriteFails? && !LiveHolds(d, base)
    ensures var s := SaveCut(d, DocOf(new_), fault, |SaveOps(d, DocOf(new_), fault)|);
            base.Some? && forall n | n in {Live, Bak} && HasDoc(s, n) :: s[n].payload.version < base.value.version
  {
    hide PickFrom, Step, Run;
    var f := DocOf(new_);
    var ops := SaveOps(d, f, fault);
    assert ops[..|ops|] == ops;
    SaveStateIsRun(d, f, fault, |ops|);
  }

  /** A refused promotion leaves the loaded configuration in tmp; the next save deletes it
      first, and power loss right then leaves no readable document. */
  lemma RefusedPromotionLosesAll()
    ensures var m := Off(map[Live := DocOf(Payload(1, "a")), Tmp := DocOf(Payload(2, "b"))],
                         Some(Payload(1, "a")), Some(Payload(2, "b")));
            && Safe(m, 0)
            && Exec(m, [Boot(PromoteFails, 9), Save("c", NoFault, 1)]).base == Some(Payload(2, "b"))
            && Picked(Exec(m, [Boot(PromoteFails, 9), Save("c", NoFault, 1)]).disk) == None
  {
    var a, b := Payload(1, "a"), Payload(2, "b");
    var d: Disk := map[Live := DocOf(a), Tmp := DocOf(b)];
    var m := Off(d, Some(a), Some(b));
    assert Candidates[0] == Live && Candidates[1] == Tmp && Candidates[2] == Bak;
    assert HasDoc(d, Tmp) && Tmp in All;
    assert Newest(d, All, Some(b));
    PickNewest(d, Some(b), 0);
    assert Pick(d) == Some(Tmp);
    BootStateIsRun(d, PromoteFails, 2);
    var d1 := BootState(d, PromoteFails, 2);
    assert BootOps(d, Pick(d), PromoteFails)[..2] == BootOps(d, Pick(d), PromoteFails);
    var m1 := Next(m, Boot(PromoteFails, 9));
    assert m1 == Running(d1, Some(b), None);
    var c := DocOf(Payload(3, "c"));
    SaveStateIsRun(d1, c, NoFault, 1);
    var d2 := d1 - {Tmp};
    var es := [Boot(PromoteFails, 9), Save("c", NoFault, 1)];
    assert es[1..] == [Save("c", NoFault, 1)] && es[1..][1..] == [];
    assert Exec(m, es) == Exec(m1, es[1..]) == Next(m1, es[1]);
    assert Exec(m, es).disk == d2;
    assert !HasDoc(d2, Live) && !HasDoc(d2, Tmp) && !HasDoc(d2, Bak);
    PickNewest(d2, None, 0);
  }

  /** Two saves whose swap is refused delete the last established copy from bak; power loss
      at the start of a third save then deletes the only document left. */
  lemma RefusedSwapsLoseAll()
    ensures var m := Running(map[Live := DocOf(Payload(1, "a"))], Some(Payload(1, "a")), None);
            var es := [Save("b", SwapFails(false), 9), Save("c", SwapFails(false), 9), Save("d", NoFault, 1)];
            && Safe(m, 0)
            && Exec(m, es).base == Some(Payload(1, "a"))
            && Picked(Exec(m, es).disk) == None
  {
    hide PickFrom, Run, Step, Newest;
    var a, b, c, e := Payload(1, "a"), Payload(2, "b"), Payload(2, "c"), Payload(2, "d");
    var d: Disk := map[Live := DocOf(a)];
    var m := Running(d, Some(a), None);
    assert Candidates[0] == Live && Candidates[1] == Tmp && Candidates[2] == Bak;
    assert Newest(d, {Live, Bak}, Some(a)) by { LiveIsNewest(d, a); }
    var d1: Disk := map[Tmp := DocOf(b), Bak := DocOf(a)];
    WholeSave(d, b, SwapFails(false), d1);
    var d2: Disk := map[Tmp := DocOf(c)];
    WholeSave(d1, c, SwapFails(false), d2);
    var d3: Disk := map[];
    SaveStateIsRun(d2, DocOf(e), NoFault, 1);
    assert d2 - {Tmp} == d3;
    var m1, m2 := Running(d1, Some(a), Some(b)), Running(d2, Some(a), Some(c));
    var es := [Save("b", SwapFails(false), 9), Save("c", SwapFails(false), 9), Save("d", NoFault, 1)];
    assert Next(m, es[0]) == m1 && Next(m1, es[1]) == m2;
    assert es[1..][0] == es[1] && es[1..][1..] == [es[2]] && [es[2]][1..] == [];
    assert Exec(m, es) == Exec(m1, es[1..]) == Exec(m2, [es[2]]) == Next(m2, es[2]);
    NothingToPick(d3);
  }

  lemma LiveIsNewest(d: Disk, a: Payload)
    requires d == map[Live := DocOf(a)]
    ensures Newest(d, {Live, Bak}, Some(a))
  {
    assert HasDoc(d, Live);
  }

  lemma NothingToPick(d: Disk)
    requires d == map[]
    ensures Picked(d) == None
  {
    PickNewest(d, None, 0);
  }

  lemma WholeSave(d: Disk, p: Payload, fault: SaveFault, s: Disk)
    requires s == SaveState(d, DocOf(p), fault, |SaveOps(d, DocOf(p), fault)|)
    ensures SaveCut(d, DocOf(p), fault, 9) == s
  {
    hide Run, Step, PickFrom;
    var ops := SaveOps(d, DocOf(p), fault);
    assert ops[..|ops|] == ops;
    SaveStateIsRun(d, DocOf(p), fault, |ops|);
  }

  // ------------------------------------------------------ where the window is needed

  function Numbered(v: nat): Payload { Payload(v, "") }

  /** Save v acknowledged or loaded, save v + 1 cut off when tmp was complete, an old bak. */
  function CutOff(b: nat, v: nat): Machine
    requires v > 0
  {
    Off(map[Live := DocOf(Numbered(v)), Tmp := DocOf(Numbered(v + 1)),
            Bak := DocOf(Numbered(b)), Bad := DocOf(Numbered(v - 1))],
        Some(Numbered(v)), Some(Numbered(v + 1)))
  }

  /** Reboot, and a save that loses power right before it would remove bak; n times. */
  function CutOffSaves(n: nat): seq<Event> {
    if n == 0 then [] else [Boot(BootOk, 9), Save("", NoFault, 3)] + CutOffSaves(n - 1)
  }

  /** Bak outlives every such save, while the versions go on. */
  lemma {:induction false} BakStays(b: nat, v: nat, n: nat)
    requires 0 < b <= v && v + n <= b + TWO31 - 1
    ensures Exec(CutOff(b, v), CutOffSaves(n)) == CutOff(b, v + n)
    decreases n
  {
    hide Next, CutOff;
    if n > 0 {
      var es := CutOffSaves(n);
      var m, m1 := CutOff(b, v), CutOff(b, v + 1);
      BakStaysOnce(b, v);
      assert es[0] == Boot(BootOk, 9) && es[1..][0] == Save("", NoFault, 3) && es[1..][1..] == CutOffSaves(n - 1);
      assert Exec(m, es) == Exec(Next(m, es[0]), es[1..]);
      BakStays(b, v + 1, n - 1);
    }
  }

  lemma BakStaysOnce(b: nat, v: nat)
    requires 0 < b <= v && v + 1 <= b + TWO31 - 1
    ensures Next(Next(CutOff(b, v), Boot(BootOk, 9)), Save("", NoFault, 3)) == CutOff(b, v + 1)
  {
    hide Step, Run;
    var m, d := CutOff(b, v), CutOff(b, v).disk;
    assert Candidates[0] == Live && Candidates[1] == Tmp && Candidates[2] == Bak;
    assert PickFrom(d, 0) == None;
    assert PickFrom(d, 1) == Some(Live);
    NewerIffLater(v + 1, v);
    assert PickFrom(d, 2) == Some(Tmp);
    NotYetNewer(b, v + 1);
    assert Pick(d) == Some(Tmp);
    BootStateIsRun(d, BootOk, 3);
    var ops := BootOps(d, Pick(d), BootOk);
    assert ops[..3] == ops;
    var d1: Disk := map[Live := DocOf(Numbered(v + 1)), Bak := DocOf(Numbered(b)), Bad := DocOf(Numbered(v))];
    assert BootState(d, BootOk, 3) == d1;
    var m1 := Running(d1, Some(Numbered(v + 1)), None);
    assert Next(m, Boot(BootOk, 9)) == m1;
    SaveStateIsRun(d1, DocOf(Numbered(v + 2)), NoFault, 3);
    assert SaveState(d1, DocOf(Numbered(v + 2)), NoFault, 3) == CutOff(b, v + 1).disk;
  }

  lemma NotYetNewer(old_: nat, new_: nat)
    requires 0 < old_ <= new_ <= old_ + TWO31 - 1
    ensures !GenerationNewer(Stored(old_), Stored(new_))
  {
  }

  /** So histories cannot be unbounded: 2^31 - 2 saves cut off in a row after the one whose
      generation was the last before the counter wraps, and the old bak wins. */
  lemma StaleBakWins()
    ensures var b, n := TWO32 - 1, TWO31 - 2;
            var end := Exec(CutOff(b, b + 1), CutOffSaves(n));
            Safe(CutOff(b, b + 1), b) && AllTolerated(CutOff(b, b + 1), CutOffSaves(n))
            && end.base == Some(Numbered(b + TWO31 - 1)) && Picked(end.disk) == Some(Numbered(b))
  {
    var b, n := TWO32 - 1, TWO31 - 2;
    hide Exec, AllTolerated, CutOffSaves, Safe;
    BakStays(b, b + 1, n);
    BakIsPicked(b);
    CutOffIsSafe(b);
    CutOffIsPowerLoss(n);
    PowerLossAlwaysTolerated(CutOff(b, b + 1), CutOffSaves(n));
  }

  lemma BakIsPicked(b: nat)
    requires b == TWO32 - 1
    ensures Picked(CutOff(b, b + TWO31 - 1).disk) == Some(Numbered(b))
  {
    hide Stored, GenerationNewer;
    var d := CutOff(b, b + TWO31 - 1).disk;
    assert Candidates[0] == Live && Candidates[1] == Tmp && Candidates[2] == Bak;
    assert PickFrom(d, 0) == None;
    assert PickFrom(d, 1) == Some(Live);
    NewerIffLater(b + TWO31, b + TWO31 - 1);
    assert PickFrom(d, 2) == Some(Tmp);
    OldLooksNewer(b);
    assert PickFrom(d, 3) == Some(Bak);
  }

  lemma OldLooksNewer(b: nat)
    requires b == TWO32 - 1
    ensures GenerationNewer(Stored(b), Stored(b + TWO31))
  {
  }

  lemma CutOffIsSafe(b: nat)
    requires b > 0
    ensures Safe(CutOff(b, b + 1), b)
  {
    var m := CutOff(b, b + 1);
    assert Newest(m.disk, All, m.last) by { assert Tmp in All && HasDoc(m.disk, Tmp); }
  }

  lemma CutOffIsPowerLoss(n: nat)
    ensures forall e | e in CutOffSaves(n) :: PowerLossOnly(e)
  {
  }
}

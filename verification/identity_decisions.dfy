/**
  What single boots decide (app/common/identity_provisioning.py): an authorized
  hardware change, the first evidence of an installation, an installation from
  before the binding, and an administrator's decision to keep the identity.
 */
module BootDecisions {
  import opened Options
  import opened HardwareIdentity
  import opened IdentityModel
  import opened ReadyBoots

  // -------------------------------------------------- identities that are kept

  /** The files that are the identity, and what the Drone has in the swarm. */
  ghost predicate SameIdentity(d: Disk, t: Disk) {
    && t.key == d.key && t.certificate == d.certificate && t.deviceFile == d.deviceFile
    && t.swarm == d.swarm && t.node == d.node && t.journal == d.journal
  }

  /** READY under the old id, with every file of the identity untouched all the way, and this binding in the end. */
  ghost predicate KeptUnder(d: Disk, e: Exec, bound: Binding) {
    && e.outcome == Ready(bound.device)
    && SameIdentity(d, e.world.disk)
    && (forall i | 0 <= i < |e.world.trace| :: SameIdentity(d, e.world.trace[i]))
    && LoadBinding(e.world.disk.binding) == Bound(bound)
    && e.world.disk.recovery.Absent?
  }

  /** The pair is the one that the binding names, the settings carry its id, and no node is on hold. */
  ghost predicate InOrder(d: Disk, b: Boot) {
    && LoadBinding(d.binding).Bound?
    && var bound := LoadBinding(d.binding).binding;
       && PairStatus(d, b.expired).valid && PairStatus(d, b.expired).fingerprint == Id(bound.fingerprint)
       && b.settingsDevice == bound.device && !bound.tailnetResetPending
  }

  // -------------------------------------------------- an authorized change

  /** Somewhere on the way both halves of the pair are gone. */
  ghost predicate PairRetired(e: Exec) {
    exists i :: 0 <= i < |e.world.trace| && e.world.trace[i].key.Missing? && e.world.trace[i].certificate.Missing?
  }

  /** A run for a new identity as a clone, which has taken the old pair away before it can end in any way. */
  ghost predicate CloneRun(d: Disk, b: Boot, e: Exec) {
    && e == Provision(World(d, []), b.settingsDevice, Clone, PriorOf(LoadBinding(d.binding)), None, b)
    && PairRetired(e)
  }

  /**
    On hardware that differs, an identity in order is kept, bound to the new
    evidence, exactly when an authorization is pending, and that is then used up;
    otherwise the boot is a clone run, which retires the pair.
   */
  lemma AHardwareChangeIsKeptExactly(d: Disk, b: Boot)
    requires d.journal.Absent? && InOrder(d, b) && b.reading.Usable()
    requires CompareHardware(LoadBinding(d.binding).binding.hardware, b.reading) == Different
    ensures var e := BootExec(d, b);
            var bound := LoadBinding(d.binding).binding.(hardware := Some(b.reading.evidence));
            && (d.authorization.Some? && b.now < d.authorization.value <==>
                KeptUnder(d, e, bound) && e.world.disk.authorization.None?)
            && (!(d.authorization.Some? && b.now < d.authorization.value) ==> CloneRun(d, b, e))
  {
    var binding := LoadBinding(d.binding).binding;
    DifferentExactly(binding.hardware, b.reading);
    if d.authorization.Some? && b.now < d.authorization.value {
      RebindingKeeps(d, b);
    } else {
      ACloneRunRetires(d, b);
      RetiredIsNotKept(d, b);
    }
  }

  lemma RebindingKeeps(d: Disk, b: Boot)
    requires InOrder(d, b)
    ensures var bound := LoadBinding(d.binding).binding.(hardware := Some(b.reading.evidence));
            var e := RebindAuthorized(World(d, []), LoadBinding(d.binding).binding, b);
            KeptUnder(d, e, bound) && e.world.disk.authorization.None?
  {
    LoadInvertsSave(LoadBinding(d.binding).binding.(hardware := Some(b.reading.evidence)));
  }

  /** A run only ever adds to what has happened. */
  ghost predicate Extends(w: World, w': World) {
    |w.trace| <= |w'.trace| && forall i | 0 <= i < |w.trace| :: w'.trace[i] == w.trace[i]
  }

  lemma IssuingExtends(w: World, device: nat, reason: Reason, prior: Prior, j: Journal, b: Boot)
    ensures Extends(w, IssueAndBind(w, device, reason, prior, j, b).world)
  {
  }

  lemma NamingExtends(w: World, device: nat, reason: Reason, prior: Prior, j: Journal, b: Boot)
    ensures Extends(w, NameAndDetach(w, device, reason, prior, j, b).world)
  {
    var j4 := j.(newDevice := Some(Id(device)));
    var w7 := w.PutJournal(j4);
    var w8 := w7.Put(w7.disk.(node := NodeAfter(w7.disk.node, b.tailnet)));
    var status := ConfirmedTailnet(b);
    if status.Some? {
      var j5 := j4.(steps := j4.steps + {TailnetCleared}, tailnet := status);
      IssuingExtends(w8.PutJournal(j5), device, reason, prior, j5, b);
    }
  }

  lemma ReplacingExtends(w: World, reason: Reason, prior: Prior, j: Journal, b: Boot)
    ensures Extends(RetireOldIdentity(w, j, b), ReplaceIdentity(w, reason, prior, j, b).world)
    ensures Extends(w, RetireOldIdentity(w, j, b))
  {
    var w2 := RetireOldIdentity(w, j, b);
    var j2 := j.(steps := j.steps + {Retired});
    var w3 := w2.PutJournal(j2);
    var w4 := w3.Put(w3.disk.(swarm := SwarmAfterReset(w3.disk.swarm, b)));
    if b.reset != Raises {
      var j3 := j2.(steps := j2.steps + {SwarmReset});
      var w5 := w4.PutJournal(j3);
      if b.reset == Complete {
        var (w6, chosen) := ChooseDevice(w5, j3, b);
        assert Extends(w5, w6);
        if chosen.Some? {
          NamingExtends(w6, chosen.value, reason, prior, j3, b);
        }
      }
    }
  }

  lemma ACloneRunRetires(d: Disk, b: Boot)
    requires PairStatus(d, b.expired).valid
    ensures CloneRun(d, b, Provision(World(d, []), b.settingsDevice, Clone, PriorOf(LoadBinding(d.binding)), None, b))
  {
    var prior := PriorOf(LoadBinding(d.binding));
    var (w1, j1) := OpenJournal(World(d, []), b.settingsDevice, Clone, prior, None, b);
    var w2 := RetireOldIdentity(w1, j1, b);
    ReplacingExtends(w1, Clone, prior, j1, b);
    var last := |w2.trace| - 1;
    assert w2.trace[last].key.Missing? && w2.trace[last].certificate.Missing?;
    var e := Provision(World(d, []), b.settingsDevice, Clone, prior, None, b);
    assert e.world.trace[last] == w2.trace[last];
  }

  lemma RetiredIsNotKept(d: Disk, b: Boot)
    requires d.key.Holds?
    ensures forall e, bound | PairRetired(e) :: !KeptUnder(d, e, bound)
  {
  }

  // -------------------------------------------------------- the first evidence

  /** An installation that had no evidence yet is bound to the first clear reading, and recognised by it from then on. */
  lemma TheFirstEvidenceIsBound(d: Disk, b: Boot)
    requires d.journal.Absent? && LoadBinding(d.binding).Bound?
    requires !HasEvidence(LoadBinding(d.binding).binding.hardware) && b.reading.Usable()
    ensures var e := BootExec(d, b);
            e.outcome.Ready? ==>
              && LoadBinding(e.world.disk.binding).Bound?
              && LoadBinding(e.world.disk.binding).binding.hardware == Some(b.reading.evidence)
              && CompareHardware(LoadBinding(e.world.disk.binding).binding.hardware, b.reading) == Same
  {
    var binding := LoadBinding(d.binding).binding;
    var bound := binding.(hardware := Some(b.reading.evidence));
    BaselineExactly(binding.hardware, b.reading);
    RecognisesItselfIffUsable(b.reading);
    LoadInvertsSave(bound);
    var w := World(d, []).PutBinding(bound);
    assert BootExec(d, b) == Verified(w, bound, b);
    VerifyingKeepsTheEvidence(w, bound, b);
  }

  /** Nothing else of an identity in order is touched then. */
  lemma AdoptingKeepsTheIdentity(d: Disk, b: Boot)
    requires d.journal.Absent? && InOrder(d, b) && d.recovery.Absent?
    requires !HasEvidence(LoadBinding(d.binding).binding.hardware) && b.reading.Usable()
    ensures var bound := LoadBinding(d.binding).binding.(hardware := Some(b.reading.evidence));
            KeptUnder(d, BootExec(d, b), bound) && BootExec(d, b).world.disk.authorization == d.authorization
  {
    var binding := LoadBinding(d.binding).binding;
    BaselineExactly(binding.hardware, b.reading);
    LoadInvertsSave(binding.(hardware := Some(b.reading.evidence)));
  }

  /** Without a clear reading, it stays without evidence, and may go on all the same. */
  lemma WithoutAReadingNothingIsBound(d: Disk, b: Boot)
    requires d.journal.Absent? && InOrder(d, b)
    requires !HasEvidence(LoadBinding(d.binding).binding.hardware) && !b.reading.Usable()
    ensures BootExec(d, b) == Exec(World(d, []), Ready(LoadBinding(d.binding).binding.device))
  {
    BaselineExactly(LoadBinding(d.binding).binding.hardware, b.reading);
  }

  /** The recorded evidence is the same after any reconciliation that ends READY. */
  lemma VerifyingKeepsTheEvidence(w: World, binding: Binding, b: Boot)
    requires LoadBinding(w.disk.binding) == Bound(binding)
    ensures var e := Verified(w, binding, b);
            e.outcome.Ready? ==>
              LoadBinding(e.world.disk.binding).Bound? && LoadBinding(e.world.disk.binding).binding.hardware == binding.hardware
  {
    if PairStatus(w.disk, b.expired).valid {
      DeviceKeepsTheEvidence(w, binding, false, b);
    } else if b.freshCertificate.Some? {
      DeviceKeepsTheEvidence(GenerateCertificate(w, b.freshCertificate.value), binding.(fingerprint := b.freshCertificate.value), true, b);
    }
  }

  lemma DeviceKeepsTheEvidence(w: World, binding: Binding, changed: bool, b: Boot)
    requires binding.installation !in {NotText, Blank} && (!changed ==> LoadBinding(w.disk.binding) == Bound(binding))
    ensures var e := VerifiedDevice(w, binding, changed, b);
            e.outcome.Ready? ==>
              LoadBinding(e.world.disk.binding).Bound? && LoadBinding(e.world.disk.binding).binding.hardware == binding.hardware
  {
    if binding.device == b.settingsDevice {
      TailnetKeepsTheEvidence(w, binding, b.settingsDevice, changed, b);
    } else if b.pinned && Id(b.settingsDevice) !in binding.retired {
      TailnetKeepsTheEvidence(w, binding.(device := b.settingsDevice), b.settingsDevice, true, b);
    } else {
      var w1 := if b.deviceWritable then w.Put(w.disk.(deviceFile := Some(binding.device))) else w;
      TailnetKeepsTheEvidence(w1, binding, binding.device, true, b);
    }
  }

  lemma TailnetKeepsTheEvidence(w: World, binding: Binding, device: nat, changed: bool, b: Boot)
    requires binding.installation !in {NotText, Blank} && (!changed ==> LoadBinding(w.disk.binding) == Bound(binding))
    ensures var e := VerifiedTailnet(w, binding, device, changed, b);
            e.outcome.Ready? ==>
              LoadBinding(e.world.disk.binding).Bound? && LoadBinding(e.world.disk.binding).binding.hardware == binding.hardware
  {
    LoadInvertsSave(binding);
    LoadInvertsSave(binding.(tailnetResetPending := false));
  }

  // ---------------------------------------------- installations without a binding

  /**
    An installation from before the binding: its id stays, a valid pair stays and
    any other is replaced by a new one, and the reading's evidence is bound.
   */
  lemma MigratingBindsTheReading(d: Disk, b: Boot)
    requires d.journal.Absent? && d.binding.Absent? && PairStatus(d, b.expired).present
    ensures var e := BootExec(d, b);
            var valid := PairStatus(d, b.expired).valid;
            && (e.outcome.Ready? <==> valid || (b.freshCertificate.Some? && b.freshCertificate.value !in b.expired))
            && (e.outcome.Ready? ==>
                  && e.outcome == Ready(b.settingsDevice)
                  && e.world.disk.key == e.world.disk.certificate
                                      == (if valid then d.certificate else Holds(b.freshCertificate.value))
                  && e.world.disk.swarm == d.swarm && e.world.disk.deviceFile == d.deviceFile && e.world.disk.node == d.node
                  && LoadBinding(e.world.disk.binding)
                     == Bound(Binding(Id(b.freshInstallation), b.settingsDevice, e.world.disk.certificate.n,
                                      if b.reading.evidence.components == map[] then None else Some(b.reading.evidence),
                                      [], false)))
            && (forall i | 0 <= i < |e.world.trace| :: e.world.trace[i].journal.Absent?)
  {
    var n := if PairStatus(d, b.expired).valid then d.certificate.n
             else if b.freshCertificate.Some? then b.freshCertificate.value else 0;
    LoadInvertsSave(NewBinding(b.settingsDevice, b.reading.evidence, n, b.freshInstallation, [], false));
  }

  /** Where there is neither a binding nor a pair, a new installation is provisioned, under a journal. */
  lemma ANewInstallationIsProvisioned(d: Disk, b: Boot)
    requires d.journal.Absent? && d.binding.Absent? && !PairStatus(d, b.expired).present
    ensures var e := BootExec(d, b);
            && e == Provision(World(d, []), b.settingsDevice, Initial, NOTHING_PRIOR, None, b)
            && |e.world.trace| >= 1 && e.world.trace[0].journal.Object? && e.world.trace[0].journal.value.reason == Initial
  {
    var (w1, j1) := OpenJournal(World(d, []), b.settingsDevice, Initial, NOTHING_PRIOR, None, b);
    IssuingExtends(w1, b.settingsDevice, Initial, NOTHING_PRIOR, j1, b);
  }

  // ----------------------------------------------------- keeping, by decision

  /**
    An administrator's decision to keep is taken exactly when networking is held
    for a reason that it can settle, no trusted run is pending and the pair is
    usable; it records the hardware as read, as far as that can be told.
   */
  lemma KeepingIsDecidedExactly(d: Disk, b: Boot)
    ensures var e := ResolveKeep(World(d, []), b);
            && (e.outcome.Ready? <==>
                && d.recovery.Object?
                && d.recovery.value.reason !in {ProvisioningFailed, JournalHardwareUnverified}
                && TrustedJournal(d).None?
                && PairStatus(d, b.expired).valid)
            && (!e.outcome.Ready? ==> e == Exec(World(d, []), Refused))
  {
  }

  lemma KeepingBindsTheReading(d: Disk, b: Boot)
    requires ResolveKeep(World(d, []), b).outcome.Ready?
    ensures var e := ResolveKeep(World(d, []), b);
            && SameIdentity(d, e.world.disk) && e.world.disk.recovery.Absent? && e.world.disk.authorization == d.authorization
            && LoadBinding(e.world.disk.binding).Bound?
            && var now := LoadBinding(e.world.disk.binding).binding;
               && e.outcome == Ready(now.device) && Id(now.fingerprint) == PairStatus(d, b.expired).fingerprint
               && (b.reading.Usable() ==> now.hardware == Some(b.reading.evidence))
               && match LoadBinding(d.binding)
                  case Bound(before) =>
                    && now.installation == before.installation && now.device == before.device && now.retired == before.retired
                    && now.tailnetResetPending == before.tailnetResetPending
                    && (!b.reading.Usable() ==> now.hardware == before.hardware)
                  case _ => now.device == b.settingsDevice && now.retired == [] && !now.tailnetResetPending
  {
    var pair := PairStatus(d, b.expired);
    match LoadBinding(d.binding) {
      case Bound(before) =>
        LoadInvertsSave(before.(hardware := if b.reading.Usable() then Some(b.reading.evidence) else before.hardware,
                                fingerprint := pair.fingerprint.n));
      case _ =>
        LoadInvertsSave(NewBinding(b.settingsDevice, b.reading.evidence, pair.fingerprint.n, b.freshInstallation, [], false));
    }
  }

  // ------------------------------------------------------------ the two gates

  /** The two gates agree: the tailnet one is open exactly where the identity check is READY without a write, on recorded evidence. */
  lemma TheGatesAgreeExactly(d: Disk, b: Boot)
    ensures TailnetStartPermitted(d, b.settingsDevice, b.reading, b.expired) <==>
              && BootExec(d, b) == Exec(World(d, []), Ready(b.settingsDevice))
              && LoadBinding(d.binding).Bound? && HasEvidence(LoadBinding(d.binding).binding.hardware)
  {
    if TailnetStartPermitted(d, b.settingsDevice, b.reading, b.expired) {
      AnOpenGateMeansAReadyAndQuietBoot(d, b);
      SameExactly(LoadBinding(d.binding).binding.hardware, b.reading);
    } else if LoadBinding(d.binding).Bound? && HasEvidence(LoadBinding(d.binding).binding.hardware) {
      if d.journal.Absent? {
        AClosedGateIsNotQuiet(d, LoadBinding(d.binding).binding, b);
      } else {
        AJournalIsNotQuiet(d, b);
      }
    }
  }

  /** A boot that writes anything is not quiet. */
  lemma AJournalIsNotQuiet(d: Disk, b: Boot)
    requires !d.journal.Absent?
    ensures BootExec(d, b) != Exec(World(d, []), Ready(b.settingsDevice))
  {
    ReadyIsCoherent(d, b);
  }

  lemma AClosedGateIsNotQuiet(d: Disk, bound: Binding, b: Boot)
    requires d.journal.Absent? && LoadBinding(d.binding) == Bound(bound) && HasEvidence(bound.hardware)
    requires !TailnetStartPermitted(d, b.settingsDevice, b.reading, b.expired)
    ensures BootExec(d, b) != Exec(World(d, []), Ready(b.settingsDevice))
  {
    var e := BootExec(d, b);
    ReadyIsCoherent(d, b);
    if CompareHardware(bound.hardware, b.reading) == Same {
      if d.recovery.Absent? && bound.tailnetResetPending {
        PendingIsNotQuiet(World(d, []), bound, b);
      } else if !d.recovery.Absent? {
        assert ReleaseAfterRecovery(World(d, [])).disk.recovery.Absent?;
        ReleasingIsNotQuiet(ReleaseAfterRecovery(World(d, [])), bound, b);
      }
    } else if CompareHardware(bound.hardware, b.reading) == Different {
      AChangeIsNotQuiet(d, bound, b);
    }
  }

  lemma PendingIsNotQuiet(w: World, bound: Binding, b: Boot)
    requires bound.tailnetResetPending
    ensures Verified(w, bound, b).outcome.Ready? ==> |Verified(w, bound, b).world.trace| > |w.trace|
  {
  }

  lemma ReleasingIsNotQuiet(w: World, bound: Binding, b: Boot)
    requires |w.trace| > 0
    ensures |Verified(w, bound, b).world.trace| > 0
  {
  }

  lemma AChangeIsNotQuiet(d: Disk, bound: Binding, b: Boot)
    requires d.journal.Absent? && LoadBinding(d.binding) == Bound(bound) && HasEvidence(bound.hardware)
    requires CompareHardware(bound.hardware, b.reading) == Different
    ensures BootExec(d, b) != Exec(World(d, []), Ready(b.settingsDevice))
  {
    var w, prior := World(d, []), PriorOf(Bound(bound));
    var (w1, j1) := OpenJournal(w, b.settingsDevice, Clone, prior, None, b);
    ReplacingExtends(w1, Clone, prior, j1, b);
    RebindingWrites(w, bound, b);
  }

  lemma RebindingWrites(w: World, bound: Binding, b: Boot)
    requires w.trace == []
    ensures var e := RebindAuthorized(w, bound, b);
            e.outcome.Ready? ==> |e.world.trace| > 0
  {
  }

  // ------------------------------------------------------ reading the files

  /** What can be told of the pair on the disk. */
  lemma PairStatusExactly(d: Disk, expired: set<nat>)
    ensures var pair := PairStatus(d, expired);
            && (pair.present <==> !(d.key.Missing? && d.certificate.Missing?))
            && (pair.valid <==> exists n :: d.key == d.certificate == Holds(n) && n !in expired)
            && pair.fingerprint == (if d.key.Missing? || !d.certificate.Holds? then Blank else Id(d.certificate.n))
  {
    if d.key.Holds? && d.key == d.certificate {
      assert d.key == d.certificate == Holds(d.key.n);
    }
  }

  /** A binding can be read exactly when it has what an identity needs, and the evidence it says it once had. */
  lemma LoadingExactly(file: Json<BindingDocument>)
    ensures var loaded := LoadBinding(file);
            && (loaded.NoBinding? <==> file.Absent?)
            && (loaded == Problem(BindingUnreadable) <==> file.Corrupt?)
            && (file.Object? ==>
                  var raw := file.value;
                  var complete := raw.schemaVersion.Some? && raw.schemaVersion.value >= 1
                                  && raw.installation != NotText && raw.installation != Blank && raw.device.Id? && raw.fingerprint.Id?;
                  && (loaded == Problem(BindingInvalid) <==> !complete)
                  && (loaded == Problem(BindingEvidenceMissing) <==> complete && raw.hardwareBound && !HasEvidence(raw.hardware))
                  && (loaded.Bound? ==> loaded.binding == Binding(raw.installation, raw.device.n, raw.fingerprint.n,
                                                                  raw.hardware, raw.retired, raw.tailnetResetPending))
                  && (loaded.Bound? <==> complete && (raw.hardwareBound ==> HasEvidence(raw.hardware))))
  {
  }

  lemma SavingExactly(b: Binding)
    ensures Document(b).schemaVersion == Some(1) && (Document(b).hardwareBound <==> HasEvidence(b.hardware))
  {
  }

  /** A journal is rejected exactly for one of these faults. */
  lemma AJournalIsRejectedExactly(j: Journal)
    ensures !ValidJournal(j) <==>
            || j.reason == OtherReason || j.state == OtherState || !j.stepsIsObject
            || j.startedAt == NotText || j.startedAt == Blank
            || j.previousDevice == NotText || j.previousInstallation == NotText
            || j.previousFingerprint == NotText || j.previousFingerprint == Garbled
            || j.hardware.None?
            || (j.newDevice.Some? && !j.newDevice.value.Id?)
  {
  }

  // ------------------------------------------------------------ being held

  /** Networking is held for this reason: the marker says so, and nothing else on the disk has changed. */
  ghost predicate HeldFor(d: Disk, b: Boot, e: Exec, reason: RecoveryReason) {
    var held := b.holds || (d.recovery.Object? && d.recovery.value.tailnetHeld);
    && e.outcome == RecoveryRequired(reason)
    && e.world.disk == d.(recovery := Object(Marker(reason, held)))
    && e.world.trace == [e.world.disk]
  }

  /** Without a run in progress, what cannot be told from the binding and the hardware is held, for a reason that says why. */
  lemma WhatIsHeldWithoutAJournal(d: Disk, b: Boot)
    requires d.journal.Absent?
    ensures LoadBinding(d.binding).Problem? ==> HeldFor(d, b, BootExec(d, b), LoadBinding(d.binding).reason)
    ensures LoadBinding(d.binding).Bound? && HasEvidence(LoadBinding(d.binding).binding.hardware) ==>
              var verdict := CompareHardware(LoadBinding(d.binding).binding.hardware, b.reading);
              && (verdict == Insufficient ==> HeldFor(d, b, BootExec(d, b), InsufficientEvidence))
              && (verdict == Contradictory ==> HeldFor(d, b, BootExec(d, b), ContradictoryEvidence))
  {
  }

  /** An authorized change asks for a pair that is valid and the one the binding names. */
  lemma AnAuthorizedChangeNeedsThePair(d: Disk, b: Boot)
    requires d.journal.Absent? && LoadBinding(d.binding).Bound? && b.reading.Usable()
    requires CompareHardware(LoadBinding(d.binding).binding.hardware, b.reading) == Different
    requires d.authorization.Some? && b.now < d.authorization.value
    ensures var pair := PairStatus(d, b.expired);
            && (!pair.valid ==> HeldFor(d, b, BootExec(d, b), CertificateInvalid))
            && (pair.valid && pair.fingerprint != Id(LoadBinding(d.binding).binding.fingerprint) ==>
                  HeldFor(d, b, BootExec(d, b), CertificateMismatch))
  {
    DifferentExactly(LoadBinding(d.binding).binding.hardware, b.reading);
  }

  /** A journal that nobody can read proves nothing: the binding and the hardware decide, and only a full match goes on. */
  lemma AnUnreadableJournalIsDecided(d: Disk, b: Boot)
    requires !d.journal.Absent? && TrustedJournal(d).None?
    ensures var e := BootExec(d, b);
            match LoadBinding(d.binding)
            case NoBinding => HeldFor(d, b, e, JournalUnreadable)
            case Problem(reason) => HeldFor(d, b, e, reason)
            case Bound(bound) =>
              var verdict := CompareHardware(bound.hardware, b.reading);
              var pair := PairStatus(d, b.expired);
              if verdict == Different then
                e == Provision(World(d, []), b.settingsDevice, Clone, PriorOf(LoadBinding(d.binding)), None, b)
              else if verdict == Same && pair.valid && pair.fingerprint == Id(bound.fingerprint) && b.settingsDevice == bound.device then
                && (e.outcome.Ready? <==> (bound.tailnetResetPending ==> b.tailnet != Error))
                && (e.outcome.Ready? ==> e.outcome == Ready(bound.device) && e.world.disk.journal.Absent?)
                && e.world.disk.key == d.key && e.world.disk.certificate == d.certificate && e.world.disk.swarm == d.swarm
              else HeldFor(d, b, e, JournalUnreadable)
  {
  }

  /** A trusted run is resumed on its own hardware, started over on any other, and held when neither can be told. */
  lemma ARunIsTakenUpExactly(d: Disk, b: Boot)
    requires TrustedJournal(d).Some?
    ensures var e := BootExec(d, b);
            var j, loaded := TrustedJournal(d).value, LoadBinding(d.binding);
            var verdict := CompareHardware(j.hardware, b.reading);
            if verdict == Same then e == Provision(World(d, []), b.settingsDevice, j.reason, PriorOf(loaded), Some(j), b)
            else if verdict == Different || !HasEvidence(j.hardware) then
              e == Provision(World(d, []), b.settingsDevice, Clone, PriorForRestart(d, j, loaded, b), None, b)
            else HeldFor(d, b, e, JournalHardwareUnverified)
  {
  }

  // -------------------------------------------------------- reconciling the rest

  /** How a binding that the hardware confirms ends: the certificate, the id and a pending reset decide, in this order. */
  lemma ReconcilingEndsExactly(w: World, bound: Binding, b: Boot)
    ensures var e := Verified(w, bound, b);
            var pair := PairStatus(w.disk, b.expired);
            var renewed := b.freshCertificate.Some? && b.freshCertificate.value !in b.expired;
            var device := if b.pinned && Id(b.settingsDevice) !in bound.retired then b.settingsDevice else bound.device;
            if pair.valid && pair.fingerprint != Id(bound.fingerprint) then e.outcome == RecoveryRequired(CertificateMismatch)
            else if !pair.valid && !renewed then e.outcome == Raised
            else if bound.tailnetResetPending && b.tailnet == Error then e.outcome == RecoveryRequired(TailnetResetFailed)
            else
              && e.outcome == Ready(device)
              && e.world.disk.key == e.world.disk.certificate
                                  == (if pair.valid then w.disk.certificate else Holds(b.freshCertificate.value))
              && e.world.disk.deviceFile == (if device != b.settingsDevice && b.deviceWritable then Some(device) else w.disk.deviceFile)
  {
    PairStatusExactly(w.disk, b.expired);
  }

  /** The administrator's decision for a new identity resumes a trusted run, or starts over from what the binding says. */
  lemma ANewIdentityIsDecided(d: Disk, b: Boot)
    ensures TrustedJournal(d).None? ==>
              ResolveNew(World(d, []), b)
              == Provision(World(d, []), b.settingsDevice, OperatorNewIdentity, PriorOf(LoadBinding(d.binding)), None, b)
    ensures TrustedJournal(d).Some? ==>
              var j, loaded := TrustedJournal(d).value, LoadBinding(d.binding);
              ResolveNew(World(d, []), b)
              == if CompareHardware(j.hardware, b.reading) == Same
                 then Provision(World(d, []), b.settingsDevice, j.reason, PriorOf(loaded), Some(j), b)
                 else Provision(World(d, []), b.settingsDevice, Clone, PriorForRestart(d, j, loaded, b), None, b)
  {
  }

  /** A boot ends READY, held or by an exception; refusing is for decisions. */
  lemma NoBootRefuses(d: Disk, b: Boot)
    ensures !BootExec(d, b).outcome.Refused?
  {
    if d.journal.Absent? {
      WithoutAJournalNothingRefuses(World(d, []), b);
    } else if TrustedJournal(d).None? {
      AnUnreadableJournalRefusesNothing(World(d, []), b);
    } else {
      ARunIsTakenUpExactly(d, b);
      var j, loaded := TrustedJournal(d).value, LoadBinding(d.binding);
      NoRunRefuses(World(d, []), b.settingsDevice, j.reason, PriorOf(loaded), Some(j), b);
      NoRunRefuses(World(d, []), b.settingsDevice, Clone, PriorForRestart(d, j, loaded, b), None, b);
    }
  }

  lemma ReconcilingRefusesNothing(w: World, bound: Binding, b: Boot)
    ensures !Verified(w, bound, b).outcome.Refused?
  {
    ReconcilingEndsExactly(w, bound, b);
  }

  lemma WithoutAJournalNothingRefuses(w: World, b: Boot)
    ensures !DecideByBinding(w, b).outcome.Refused?
  {
    if LoadBinding(w.disk.binding).Bound? {
      ABoundBootRefusesNothing(w, LoadBinding(w.disk.binding).binding, b);
    } else {
      NoRunRefuses(w, b.settingsDevice, Initial, NOTHING_PRIOR, None, b);
    }
  }

  lemma ABoundBootRefusesNothing(w: World, bound: Binding, b: Boot)
    requires LoadBinding(w.disk.binding) == Bound(bound)
    ensures !DecideByBinding(w, b).outcome.Refused?
  {
    var verdict := CompareHardware(bound.hardware, b.reading);
    var own := bound.(hardware := Some(b.reading.evidence));
    if !HasEvidence(bound.hardware) {
      ReconcilingRefusesNothing(if verdict == Baseline then w.PutBinding(own) else w, if verdict == Baseline then own else bound, b);
    } else if verdict == Same {
      ReconcilingRefusesNothing(ReleaseAfterRecovery(w), bound, b);
    } else if verdict == Different {
      if b.reading.Usable() && Authorized(w.disk, b.now) {
        AnAuthorizedChangeRefusesNothing(w, bound, b);
      } else {
        NoRunRefuses(w, b.settingsDevice, Clone, PriorOf(Bound(bound)), None, b);
      }
    }
  }

  lemma AnAuthorizedChangeRefusesNothing(w: World, bound: Binding, b: Boot)
    ensures !RebindAuthorized(w, bound, b).outcome.Refused?
  {
    var own := bound.(hardware := Some(b.reading.evidence));
    var w1 := w.PutBinding(own);
    ReconcilingRefusesNothing(ReleaseAfterRecovery(w1.Put(w1.disk.(authorization := None))), own, b);
  }

  lemma AnUnreadableJournalRefusesNothing(w: World, b: Boot)
    ensures !WithoutJournal(w, b).outcome.Refused?
  {
    if LoadBinding(w.disk.binding).Bound? {
      var bound := LoadBinding(w.disk.binding).binding;
      NoRunRefuses(w, b.settingsDevice, Clone, PriorOf(Bound(bound)), None, b);
      ReconcilingRefusesNothing(w, bound, b);
    }
  }

  lemma NoRunRefuses(w: World, device: nat, reason: Reason, prior: Prior, resumed: Option<Journal>, b: Boot)
    ensures var outcome := Provision(w, device, reason, prior, resumed, b).outcome;
            outcome.Raised? || outcome.Ready?
  {
  }

  /** A boot that ends by an exception leaves a marker, where it can be written, and no claim that the node is on hold. */
  lemma AnExceptionLeavesAMarker(d: Disk, b: Boot, writes: nat)
    ensures var e := BootExec(d, b);
            && (AfterBoot(d, b, Finished) == if e.outcome.Raised?
                                             then e.world.disk.(recovery := Object(Marker(ProvisioningFailed, false))) else e.world.disk)
            && AfterBoot(d, b, Failure(writes, true))
               == AfterBoot(d, b, PowerLoss(writes)).(recovery := Object(Marker(ProvisioningFailed, false)))
            && AfterBoot(d, b, Failure(writes, false)) == AfterBoot(d, b, PowerLoss(writes))
  {
  }
}

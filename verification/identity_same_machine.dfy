/**
  A machine is never turned into a clone of itself: while its own sensors come
  and go, boots and "keep" decisions retire nothing and consume nothing.
 */
module SameMachine {
  import opened Options
  import opened HardwareIdentity
  import opened IdentityModel

  /** The binding is readable, its evidence is this machine's, and no provisioning is pending. */
  ghost predicate AtHome(truth: Identifiers, d: Disk) {
    && TrustedJournal(d).None?
    && var loaded := LoadBinding(d.binding);
       && loaded.Bound?
       && (loaded.binding.hardware.Some? ==> ReadFrom(truth, loaded.binding.hardware.value.components))
  }

  ghost predicate CertificateKept(d: Disk, expired: set<nat>, t: Disk) {
    PairStatus(d, expired).valid ==> t.key == d.key && t.certificate == d.certificate
  }

  /** What a boot or decision may change of the identity: nothing but a pinned id and an unusable certificate. */
  ghost predicate Kept(truth: Identifiers, d: Disk, b: Boot, t: Disk)
    requires AtHome(truth, d)
  {
    && AtHome(truth, t)
    && (t.journal == d.journal || t.journal.Absent?)
    && t.authorization == d.authorization
    && t.swarm == d.swarm
    && CertificateKept(d, b.expired, t)
    && var before, after := LoadBinding(d.binding).binding, LoadBinding(t.binding).binding;
       && after.installation == before.installation
       && after.retired == before.retired
       && (after.device == before.device || (b.pinned && after.device == b.settingsDevice))
  }

  ghost predicate KeptTrace(truth: Identifiers, d: Disk, b: Boot, w: World)
    requires AtHome(truth, d)
  {
    && Kept(truth, d, b, w.disk)
    && forall i | 0 <= i < |w.trace| :: Kept(truth, d, b, w.trace[i])
  }

  ghost predicate Home(truth: Identifiers, d: Disk, b: Boot) {
    AtHome(truth, d) && ReadFrom(truth, b.reading.evidence.components)
  }

  /** A binding that differs from the recorded one only in ways this boot may change it. */
  ghost predicate Successor(truth: Identifiers, d: Disk, b: Boot, binding: Binding)
    requires AtHome(truth, d)
  {
    && var before := LoadBinding(d.binding).binding;
       && binding.installation == before.installation
       && binding.retired == before.retired
       && (binding.device == before.device || (b.pinned && binding.device == b.settingsDevice))
       && (binding.hardware.Some? ==> ReadFrom(truth, binding.hardware.value.components))
  }

  lemma FileStep(truth: Identifiers, d: Disk, b: Boot, w: World, t: Disk)
    requires Home(truth, d, b) && KeptTrace(truth, d, b, w)
    requires t.binding == w.disk.binding && (t.journal == w.disk.journal || t.journal.Absent?)
    requires t.authorization == d.authorization && t.swarm == d.swarm && CertificateKept(d, b.expired, t)
    ensures KeptTrace(truth, d, b, w.Put(t))
  {
  }

  lemma SavingStep(truth: Identifiers, d: Disk, b: Boot, w: World, binding: Binding)
    requires Home(truth, d, b) && KeptTrace(truth, d, b, w) && Successor(truth, d, b, binding)
    ensures KeptTrace(truth, d, b, w.PutBinding(binding))
  {
    LoadInvertsSave(binding);
    var t := w.disk.(binding := Object(Document(binding)));
    assert TrustedJournal(t) == TrustedJournal(w.disk);
    assert Kept(truth, d, b, t);
  }

  lemma TailnetKeeps(truth: Identifiers, d: Disk, b: Boot, w: World, binding: Binding, device: nat, changed: bool)
    requires Home(truth, d, b) && KeptTrace(truth, d, b, w) && Successor(truth, d, b, binding)
    ensures KeptTrace(truth, d, b, VerifiedTailnet(w, binding, device, changed, b).world)
  {
    SavingStep(truth, d, b, w, binding);
    var w1 := w.Put(w.disk.(node := NodeAfter(w.disk.node, b.tailnet)));
    FileStep(truth, d, b, w, w1.disk);
    SavingStep(truth, d, b, w1, binding);
    SavingStep(truth, d, b, w1, binding.(tailnetResetPending := false));
    HoldingKeeps(truth, d, b, w1, TailnetResetFailed);
  }

  lemma HoldingKeeps(truth: Identifiers, d: Disk, b: Boot, w: World, reason: RecoveryReason)
    requires Home(truth, d, b) && KeptTrace(truth, d, b, w)
    ensures KeptTrace(truth, d, b, EnterRecovery(w, reason, b).world)
  {
    FileStep(truth, d, b, w, EnterRecovery(w, reason, b).world.disk);
  }

  lemma DeviceKeeps(truth: Identifiers, d: Disk, b: Boot, w: World, binding: Binding, changed: bool)
    requires Home(truth, d, b) && KeptTrace(truth, d, b, w) && Successor(truth, d, b, binding)
    ensures KeptTrace(truth, d, b, VerifiedDevice(w, binding, changed, b).world)
  {
    if binding.device == b.settingsDevice {
      TailnetKeeps(truth, d, b, w, binding, b.settingsDevice, changed);
    } else if b.pinned && Id(b.settingsDevice) !in binding.retired {
      TailnetKeeps(truth, d, b, w, binding.(device := b.settingsDevice), b.settingsDevice, true);
    } else {
      FileStep(truth, d, b, w, w.disk.(deviceFile := Some(binding.device)));
      var w1 := if b.deviceWritable then w.Put(w.disk.(deviceFile := Some(binding.device))) else w;
      TailnetKeeps(truth, d, b, w1, binding, binding.device, true);
    }
  }

  lemma VerifyingKeeps(truth: Identifiers, d: Disk, b: Boot, w: World, binding: Binding)
    requires Home(truth, d, b) && KeptTrace(truth, d, b, w) && Successor(truth, d, b, binding)
    requires w.disk.key == d.key && w.disk.certificate == d.certificate
    ensures KeptTrace(truth, d, b, Verified(w, binding, b).world)
  {
    if PairStatus(w.disk, b.expired).valid {
      HoldingKeeps(truth, d, b, w, CertificateMismatch);
      DeviceKeeps(truth, d, b, w, binding, false);
    } else if b.freshCertificate.Some? {
      var n := b.freshCertificate.value;
      FileStep(truth, d, b, w, w.disk.(key := Holds(n)));
      var m := w.Put(w.disk.(key := Holds(n)));
      FileStep(truth, d, b, m, m.disk.(certificate := Holds(n)));
      DeviceKeeps(truth, d, b, GenerateCertificate(w, n), binding.(fingerprint := n), true);
    }
  }

  /** One boot: no disk state it passes through has lost anything of the identity. */
  lemma ABootKeepsTheIdentity(truth: Identifiers, d: Disk, b: Boot)
    requires Home(truth, d, b)
    ensures KeptTrace(truth, d, b, BootExec(d, b).world)
  {
    var w := World(d, []);
    var binding := LoadBinding(d.binding).binding;
    FlakySensorsAreNeverDifferent(truth, binding.hardware, b.reading);
    if d.journal.Absent? {
      if (binding.hardware.None? || binding.hardware.value.components == map[])
         && CompareHardware(binding.hardware, b.reading) == Baseline {
        var bound := binding.(hardware := Some(b.reading.evidence));
        SavingStep(truth, d, b, w, bound);
        VerifyingKeeps(truth, d, b, w.PutBinding(bound), bound);
      } else {
        FileStep(truth, d, b, w, d.(recovery := Absent));
        VerifyingKeeps(truth, d, b, w, binding);
        VerifyingKeeps(truth, d, b, ReleaseAfterRecovery(w), binding);
        HoldingKeeps(truth, d, b, w, InsufficientEvidence);
        HoldingKeeps(truth, d, b, w, ContradictoryEvidence);
      }
    } else {
      VerifyingKeeps(truth, d, b, w, binding);
      var e := Verified(w, binding, b);
      FileStep(truth, d, b, e.world, e.world.disk.(journal := Absent));
      HoldingKeeps(truth, d, b, w, JournalUnreadable);
    }
  }

  lemma KeepingKeepsTheIdentity(truth: Identifiers, d: Disk, b: Boot)
    requires Home(truth, d, b)
    ensures KeptTrace(truth, d, b, ResolveKeep(World(d, []), b).world)
  {
    var w := World(d, []);
    var binding := LoadBinding(d.binding).binding;
    var pair := PairStatus(d, b.expired);
    if pair.valid {
      var kept := binding.(hardware := if b.reading.Usable() then Some(b.reading.evidence) else binding.hardware,
                           fingerprint := pair.fingerprint.n);
      SavingStep(truth, d, b, w, kept);
      var w1 := w.PutBinding(kept);
      FileStep(truth, d, b, w1, w1.disk.(recovery := Absent));
    }
  }

  // --------------------------------------------------------- whole histories

  datatype Event = Booted(boot: Boot, stop: Stop) | KeptByAdministrator(boot: Boot, stop: Stop)

  function Run(d: Disk, e: Event): Exec {
    match e
    case Booted(b, _) => BootExec(d, b)
    case KeptByAdministrator(b, _) => ResolveKeep(World(d, []), b)
  }

  function DiskAfter(d: Disk, events: seq<Event>): Disk {
    if events == [] then d
    else
      var before := DiskAfter(d, events[..|events| - 1]);
      var e := events[|events| - 1];
      AfterStop(before, Run(before, e), e.stop)
  }

  lemma OneEventKeeps(truth: Identifiers, d: Disk, e: Event)
    requires Home(truth, d, e.boot)
    ensures Kept(truth, d, e.boot, AfterStop(d, Run(d, e), e.stop))
  {
    ABootKeepsTheIdentity(truth, d, e.boot);
    KeepingKeepsTheIdentity(truth, d, e.boot);
    var run := Run(d, e);
    var left := match e.stop
      case Finished => run.world.disk
      case PowerLoss(n) => DiskAfterWrites(d, run.world.trace, n)
      case Failure(n, _) => DiskAfterWrites(d, run.world.trace, n);
    assert Kept(truth, d, e.boot, d);
    assert Kept(truth, d, e.boot, left);
    assert TrustedJournal(MarkFailed(left)) == TrustedJournal(left);
  }

  /**
    The main result: over every history of boots and "keep" decisions on the
    machine's own hardware, cut short anywhere, nothing of the identity is
    retired, no authorization is consumed, and a usable certificate stays.
   */
  lemma {:induction false} FlakySensorsNeverCloneTheMachine(truth: Identifiers, d: Disk, events: seq<Event>)
    requires AtHome(truth, d)
    requires forall i | 0 <= i < |events| :: ReadFrom(truth, events[i].boot.reading.evidence.components)
    ensures var now := DiskAfter(d, events);
            && AtHome(truth, now)
            && now.authorization == d.authorization
            && now.swarm == d.swarm
            && LoadBinding(now.binding).binding.installation == LoadBinding(d.binding).binding.installation
            && LoadBinding(now.binding).binding.retired == LoadBinding(d.binding).binding.retired
    ensures (forall i | 0 <= i < |events| :: PairStatus(d, events[i].boot.expired).valid) ==>
              DiskAfter(d, events).key == d.key && DiskAfter(d, events).certificate == d.certificate
    ensures (forall i | 0 <= i < |events| :: !events[i].boot.pinned) ==>
              LoadBinding(DiskAfter(d, events).binding).binding.device == LoadBinding(d.binding).binding.device
  {
    if events != [] {
      var n := |events| - 1;
      var earlier := events[..n];
      FlakySensorsNeverCloneTheMachine(truth, d, earlier);
      OneEventKeeps(truth, DiskAfter(d, earlier), events[n]);
    }
  }
}

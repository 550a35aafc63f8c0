/**
  What READY promises, whatever the disk looked like before, and how the two boot
  gates (the identity check and the tailnet preflight) agree.
 */
module ReadyBoots {
  import opened Options
  import opened HardwareIdentity
  import opened IdentityModel

  /** Certificate, binding and announced device id tell one story and nothing is pending. */
  ghost predicate Coherent(d: Disk, device: nat, expired: set<nat>) {
    && var pair := PairStatus(d, expired);
       var loaded := LoadBinding(d.binding);
       && pair.valid
       && loaded.Bound?
       && pair.fingerprint == Id(loaded.binding.fingerprint)
       && device == loaded.binding.device
  }

  ghost predicate ReadyMeansCoherent(e: Exec, expired: set<nat>) {
    e.outcome.Ready? ==> Coherent(e.world.disk, e.outcome.device, expired)
  }

  /** What the commit leaves: the new binding and nothing of the run's own files. */
  lemma CommittingIs(w: World, device: nat, reason: Reason, prior: Prior, j: Journal, fingerprint: nat, b: Boot)
    ensures var d := CommitBinding(w, device, reason, prior, j, fingerprint, b).disk;
            && d == w.disk.(binding := d.binding, journal := Absent, recovery := Absent)
            && LoadBinding(d.binding) == Bound(NewBinding(device, b.reading.evidence, fingerprint, b.freshInstallation,
                                                          RetiredAfter(prior.retired, reason, device, j), j.tailnet == Some(Held)))
  {
    LoadInvertsSave(NewBinding(device, b.reading.evidence, fingerprint, b.freshInstallation,
                               RetiredAfter(prior.retired, reason, device, j), j.tailnet == Some(Held)));
  }

  /** Issuing ends READY by a commit on a disk that differs in the pair alone. */
  lemma IssuingIs(w: World, device: nat, reason: Reason, prior: Prior, j: Journal, b: Boot) returns (w1: World, n: nat)
    ensures var e := IssueAndBind(w, device, reason, prior, j, b);
            e.outcome.Ready? ==>
              && e.outcome == Ready(device)
              && w1.disk == w.disk.(key := w1.disk.key, certificate := w1.disk.certificate, journal := w1.disk.journal)
              && PairStatus(w1.disk, b.expired).valid && PairStatus(w1.disk, b.expired).fingerprint == Id(n)
              && e.world == CommitBinding(w1, device, reason, prior, j.(steps := j.steps + {CertificateIssued}), n, b)
  {
    var current := PairStatus(w.disk, b.expired);
    var keep := current.valid && (reason == Initial || current.fingerprint != j.previousFingerprint);
    w1 := if keep || b.freshCertificate.None? then w else GenerateCertificate(w, b.freshCertificate.value);
    var pair := PairStatus(w1.disk, b.expired);
    n := if pair.fingerprint.Id? then pair.fingerprint.n else 0;
    w1 := w1.PutJournal(j.(steps := j.steps + {CertificateIssued}));
  }

  lemma IssuingEndsCoherent(w: World, device: nat, reason: Reason, prior: Prior, j: Journal, b: Boot)
    ensures var e := IssueAndBind(w, device, reason, prior, j, b);
            ReadyMeansCoherent(e, b.expired) && (e.outcome.Ready? ==> e.world.disk.journal.Absent?)
  {
    var w1, n := IssuingIs(w, device, reason, prior, j, b);
    CommittingIs(w1, device, reason, prior, j.(steps := j.steps + {CertificateIssued}), n, b);
  }

  lemma ReplacingEndsCoherent(w: World, reason: Reason, prior: Prior, j: Journal, b: Boot)
    ensures var e := ReplaceIdentity(w, reason, prior, j, b);
            ReadyMeansCoherent(e, b.expired) && (e.outcome.Ready? ==> e.world.disk.journal.Absent?)
  {
    var w2 := RetireOldIdentity(w, j, b);
    var j2 := j.(steps := j.steps + {Retired});
    var w3 := w2.PutJournal(j2);
    var w4 := w3.Put(w3.disk.(swarm := SwarmAfterReset(w3.disk.swarm, b)));
    var j3 := j2.(steps := j2.steps + {SwarmReset});
    var w5 := w4.PutJournal(j3);
    var (w6, chosen) := ChooseDevice(w5, j3, b);
    if chosen.Some? {
      var j4 := j3.(newDevice := Some(Id(chosen.value)));
      var w7 := w6.PutJournal(j4);
      var w8 := w7.Put(w7.disk.(node := NodeAfter(w7.disk.node, b.tailnet)));
      var status := ConfirmedTailnet(b);
      if status.Some? {
        var j5 := j4.(steps := j4.steps + {TailnetCleared}, tailnet := status);
        IssuingEndsCoherent(w8.PutJournal(j5), chosen.value, reason, prior, j5, b);
      }
    }
  }

  lemma ProvisioningEndsCoherent(w: World, device: nat, reason: Reason, prior: Prior, resumed: Option<Journal>, b: Boot)
    ensures var e := Provision(w, device, reason, prior, resumed, b);
            ReadyMeansCoherent(e, b.expired) && (e.outcome.Ready? ==> e.world.disk.journal.Absent?)
  {
    var (w1, j1) := OpenJournal(w, device, reason, prior, resumed, b);
    if reason == Initial {
      IssuingEndsCoherent(w1, if j1.newDevice.Some? && j1.newDevice.value.Id? then j1.newDevice.value.n else device, reason, prior, j1, b);
    } else {
      ReplacingEndsCoherent(w1, reason, prior, j1, b);
    }
  }

  /** The state the reconciliation of a binding runs in: only a save may still be missing. */
  ghost predicate Reconciling(w: World, binding: Binding, changed: bool, b: Boot) {
    && binding.installation !in {NotText, Blank}
    && PairStatus(w.disk, b.expired).valid
    && PairStatus(w.disk, b.expired).fingerprint == Id(binding.fingerprint)
    && (!changed ==> LoadBinding(w.disk.binding) == Bound(binding))
  }

  lemma TailnetEndsCoherent(w: World, binding: Binding, device: nat, changed: bool, b: Boot)
    requires Reconciling(w, binding, changed, b) && device == binding.device
    ensures var e := VerifiedTailnet(w, binding, device, changed, b);
            ReadyMeansCoherent(e, b.expired) && e.world.disk.journal == w.disk.journal
  {
    LoadInvertsSave(binding);
    LoadInvertsSave(binding.(tailnetResetPending := false));
  }

  lemma DeviceEndsCoherent(w: World, binding: Binding, changed: bool, b: Boot)
    requires Reconciling(w, binding, changed, b)
    ensures var e := VerifiedDevice(w, binding, changed, b);
            ReadyMeansCoherent(e, b.expired) && e.world.disk.journal == w.disk.journal
  {
    if binding.device == b.settingsDevice {
      TailnetEndsCoherent(w, binding, b.settingsDevice, changed, b);
    } else if b.pinned && Id(b.settingsDevice) !in binding.retired {
      TailnetEndsCoherent(w, binding.(device := b.settingsDevice), b.settingsDevice, true, b);
    } else {
      var w1 := if b.deviceWritable then w.Put(w.disk.(deviceFile := Some(binding.device))) else w;
      TailnetEndsCoherent(w1, binding, binding.device, true, b);
    }
  }

  lemma VerifyingEndsCoherent(w: World, binding: Binding, b: Boot)
    requires LoadBinding(w.disk.binding) == Bound(binding)
    ensures var e := Verified(w, binding, b);
            ReadyMeansCoherent(e, b.expired) && e.world.disk.journal == w.disk.journal
  {
    var pair := PairStatus(w.disk, b.expired);
    if pair.valid {
      if pair.fingerprint == Id(binding.fingerprint) {
        DeviceEndsCoherent(w, binding, false, b);
      }
    } else if b.freshCertificate.Some? {
      var w1 := GenerateCertificate(w, b.freshCertificate.value);
      if PairStatus(w1.disk, b.expired).valid {
        DeviceEndsCoherent(w1, binding.(fingerprint := b.freshCertificate.value), true, b);
      }
    }
  }

  lemma DecidingEndsCoherent(w: World, b: Boot)
    requires w.disk.journal.Absent?
    ensures var e := DecideByBinding(w, b);
            ReadyMeansCoherent(e, b.expired) && (e.outcome.Ready? ==> e.world.disk.journal.Absent?)
  {
    match LoadBinding(w.disk.binding) {
      case NoBinding =>
        if PairStatus(w.disk, b.expired).present {
        } else {
          ProvisioningEndsCoherent(w, b.settingsDevice, Initial, NOTHING_PRIOR, None, b);
        }
      case Problem(_) =>
      case Bound(binding) =>
        DecidingOnBound(w, binding, b);
    }
  }

  lemma DecidingOnBound(w: World, binding: Binding, b: Boot)
    requires w.disk.journal.Absent? && LoadBinding(w.disk.binding) == Bound(binding)
    ensures var e := DecideByBinding(w, b);
            ReadyMeansCoherent(e, b.expired) && (e.outcome.Ready? ==> e.world.disk.journal.Absent?)
  {
    var bound := binding.(hardware := Some(b.reading.evidence));
    LoadInvertsSave(bound);
    var verdict := CompareHardware(binding.hardware, b.reading);
    if binding.hardware.None? || binding.hardware.value.components == map[] {
      if verdict == Baseline {
        VerifyingEndsCoherent(w.PutBinding(bound), bound, b);
      } else {
        VerifyingEndsCoherent(w, binding, b);
      }
    } else if verdict == Same {
      VerifyingEndsCoherent(ReleaseAfterRecovery(w), binding, b);
    } else if verdict == Different {
      if b.reading.Usable() && Authorized(w.disk, b.now) {
        var w1 := w.PutBinding(bound);
        var w2 := ReleaseAfterRecovery(w1.Put(w1.disk.(authorization := None)));
        VerifyingEndsCoherent(w2, bound, b);
      } else {
        ProvisioningEndsCoherent(w, b.settingsDevice, Clone, PriorOf(Bound(binding)), None, b);
      }
    }
  }

  lemma WithoutJournalEndsCoherent(w: World, b: Boot)
    ensures var e := WithoutJournal(w, b);
            ReadyMeansCoherent(e, b.expired) && (e.outcome.Ready? ==> e.world.disk.journal.Absent?)
  {
    var loaded := LoadBinding(w.disk.binding);
    if loaded.Bound? {
      var binding := loaded.binding;
      if CompareHardware(binding.hardware, b.reading) == Different {
        ProvisioningEndsCoherent(w, b.settingsDevice, Clone, PriorOf(Bound(binding)), None, b);
      } else {
        VerifyingEndsCoherent(w, binding, b);
      }
    }
  }

  /** From any disk at all: READY leaves a coherent identity and no journal. */
  lemma ReadyIsCoherent(d: Disk, b: Boot)
    ensures var e := BootExec(d, b);
            e.outcome.Ready? ==> Coherent(e.world.disk, e.outcome.device, b.expired) && e.world.disk.journal.Absent?
  {
    var w := World(d, []);
    if d.journal.Absent? {
      DecidingEndsCoherent(w, b);
    } else {
      match TrustedJournal(d) {
        case None => WithoutJournalEndsCoherent(w, b);
        case Some(j) =>
          var loaded := LoadBinding(d.binding);
          ProvisioningEndsCoherent(w, b.settingsDevice, j.reason, PriorOf(loaded), Some(j), b);
          ProvisioningEndsCoherent(w, b.settingsDevice, Clone, PriorForRestart(d, j, loaded, b), None, b);
      }
    }
  }

  // ---------------------------------------------------------- the two gates

  /** Where the tailnet gate opens, the identity check agrees, and it writes nothing. */
  lemma AnOpenGateMeansAReadyAndQuietBoot(d: Disk, b: Boot)
    requires TailnetStartPermitted(d, b.settingsDevice, b.reading, b.expired)
    ensures BootExec(d, b) == Exec(World(d, []), Ready(b.settingsDevice))
  {
    SameExactly(LoadBinding(d.binding).binding.hardware, b.reading);
  }

  /** Provisioning opens the gate for its own reading exactly when there was evidence and no node is left on hold. */
  lemma ProvisioningOpensTheGate(w: World, device: nat, reason: Reason, prior: Prior, resumed: Option<Journal>, b: Boot, e: Exec)
    requires e == Provision(w, device, reason, prior, resumed, b) && e.outcome.Ready?
    ensures LoadBinding(e.world.disk.binding).Bound?
    ensures TailnetStartPermitted(e.world.disk, e.outcome.device, b.reading, b.expired) <==>
            b.reading.Usable() && !LoadBinding(e.world.disk.binding).binding.tailnetResetPending
  {
    ProvisioningEndsCoherent(w, device, reason, prior, resumed, b);
    ProvisioningRecordsItsReading(w, device, reason, prior, resumed, b);
    RecognisesItselfIffUsable(b.reading);
  }

  ghost predicate Recorded(e: Exec, b: Boot) {
    e.outcome.Ready? ==>
      && e.world.disk.recovery.Absent?
      && LoadBinding(e.world.disk.binding).Bound?
      && LoadBinding(e.world.disk.binding).binding.hardware
         == (if b.reading.evidence.components == map[] then None else Some(b.reading.evidence))
  }

  lemma IssuingRecordsItsReading(w: World, device: nat, reason: Reason, prior: Prior, j: Journal, b: Boot)
    ensures Recorded(IssueAndBind(w, device, reason, prior, j, b), b)
  {
    var w1, n := IssuingIs(w, device, reason, prior, j, b);
    CommittingIs(w1, device, reason, prior, j.(steps := j.steps + {CertificateIssued}), n, b);
  }

  lemma ProvisioningRecordsItsReading(w: World, device: nat, reason: Reason, prior: Prior, resumed: Option<Journal>, b: Boot)
    ensures Recorded(Provision(w, device, reason, prior, resumed, b), b)
  {
    var (w1, j1) := OpenJournal(w, device, reason, prior, resumed, b);
    if reason == Initial {
      IssuingRecordsItsReading(w1, if j1.newDevice.Some? && j1.newDevice.value.Id? then j1.newDevice.value.n else device, reason, prior, j1, b);
    } else {
      var j2 := j1.(steps := j1.steps + {Retired});
      var w3 := RetireOldIdentity(w1, j1, b).PutJournal(j2);
      var w4 := w3.Put(w3.disk.(swarm := SwarmAfterReset(w3.disk.swarm, b)));
      var j3 := j2.(steps := j2.steps + {SwarmReset});
      var (w6, chosen) := ChooseDevice(w4.PutJournal(j3), j3, b);
      if chosen.Some? {
        var j4 := j3.(newDevice := Some(Id(chosen.value)));
        var w7 := w6.PutJournal(j4);
        var w8 := w7.Put(w7.disk.(node := NodeAfter(w7.disk.node, b.tailnet)));
        var status := ConfirmedTailnet(b);
        if status.Some? {
          var j5 := j4.(steps := j4.steps + {TailnetCleared}, tailnet := status);
          IssuingRecordsItsReading(w8.PutJournal(j5), chosen.value, reason, prior, j5, b);
        }
      }
    }
  }

  /** What a replacement, fresh or resumed, does about the tailnet node by the time it is READY. */
  ghost predicate Detached(e: Exec, node: Option<nat>, b: Boot) {
    e.outcome.Ready? ==>
      && e.world.disk.node == NodeAfter(node, b.tailnet)
      && LoadBinding(e.world.disk.binding).Bound?
      && (LoadBinding(e.world.disk.binding).binding.tailnetResetPending <==> b.tailnet in {Held, Error})
  }

  lemma IssuingLeavesTheNode(w: World, device: nat, reason: Reason, prior: Prior, j: Journal, b: Boot, node: Option<nat>)
    requires w.disk.node == NodeAfter(node, b.tailnet) && j.tailnet == ConfirmedTailnet(b) && j.tailnet.Some?
    ensures Detached(IssueAndBind(w, device, reason, prior, j, b), node, b)
  {
    var w1, n := IssuingIs(w, device, reason, prior, j, b);
    CommittingIs(w1, device, reason, prior, j.(steps := j.steps + {CertificateIssued}), n, b);
  }

  lemma NamingDetaches(w: World, device: nat, reason: Reason, prior: Prior, j: Journal, b: Boot)
    ensures Detached(NameAndDetach(w, device, reason, prior, j, b), w.disk.node, b)
  {
    var j4 := j.(newDevice := Some(Id(device)));
    var w7 := w.PutJournal(j4);
    var w8 := w7.Put(w7.disk.(node := NodeAfter(w7.disk.node, b.tailnet)));
    var status := ConfirmedTailnet(b);
    if status.Some? {
      var j5 := j4.(steps := j4.steps + {TailnetCleared}, tailnet := status);
      IssuingLeavesTheNode(w8.PutJournal(j5), device, reason, prior, j5, b, w.disk.node);
    }
  }

  lemma ReplacingDetaches(w: World, device: nat, reason: Reason, prior: Prior, resumed: Option<Journal>, b: Boot)
    requires reason != Initial
    ensures Detached(Provision(w, device, reason, prior, resumed, b), w.disk.node, b)
  {
    var (w1, j1) := OpenJournal(w, device, reason, prior, resumed, b);
    var j2 := j1.(steps := j1.steps + {Retired});
    var w3 := RetireOldIdentity(w1, j1, b).PutJournal(j2);
    var w4 := w3.Put(w3.disk.(swarm := SwarmAfterReset(w3.disk.swarm, b)));
    var j3 := j2.(steps := j2.steps + {SwarmReset});
    var (w6, chosen) := ChooseDevice(w4.PutJournal(j3), j3, b);
    assert w6.disk.node == w.disk.node;
    if chosen.Some? {
      NamingDetaches(w6, chosen.value, reason, prior, j3, b);
    }
  }

  /**
    A replacement that starts afresh (a clone, or at the administrator's request)
    takes nothing over; of the tailnet node it is rid, or has it on hold, exactly
    unless a node key was there and no client was installed to clear it.
   */
  lemma AFreshReplacementTakesNothingOver(d: Disk, device: nat, reason: Reason, prior: Prior, b: Boot)
    requires reason != Initial
    ensures var e := Provision(World(d, []), device, reason, prior, None, b);
            e.outcome.Ready? ==>
              && e.outcome == Ready(b.freshDevice)
              && b.freshCertificate.Some?
              && e.world.disk.key == Holds(b.freshCertificate.value)
              && e.world.disk.certificate == Holds(b.freshCertificate.value)
              && e.world.disk.swarm == {}
              && LoadBinding(e.world.disk.binding).Bound?
              && (e.world.disk.node.None? || LoadBinding(e.world.disk.binding).binding.tailnetResetPending
                  <==> d.node.None? || b.tailnet != NotInstalled)
  {
    ReplacingDetaches(World(d, []), device, reason, prior, None, b);
    var (w1, j1) := OpenJournal(World(d, []), device, reason, prior, None, b);
    var w2 := RetireOldIdentity(w1, j1, b);
    assert !PairStatus(w2.disk, b.expired).present;
    var j2 := j1.(steps := j1.steps + {Retired});
    var w3 := w2.PutJournal(j2);
    var w4 := w3.Put(w3.disk.(swarm := SwarmAfterReset(w3.disk.swarm, b)));
    var j3 := j2.(steps := j2.steps + {SwarmReset});
    var (w6, chosen) := ChooseDevice(w4.PutJournal(j3), j3, b);
    var j4 := j3.(newDevice := Some(Id(chosen.value)));
    var w7 := w6.PutJournal(j4);
    var w8 := w7.Put(w7.disk.(node := NodeAfter(w7.disk.node, b.tailnet)));
    var status := ConfirmedTailnet(b);
    if b.reset == Complete && status.Some? {
      var j5 := j4.(steps := j4.steps + {TailnetCleared}, tailnet := status);
      IssuingForAnEmptyPair(w8.PutJournal(j5), chosen.value, reason, prior, j5, b);
    }
  }

  lemma IssuingForAnEmptyPair(w: World, device: nat, reason: Reason, prior: Prior, j: Journal, b: Boot)
    requires !PairStatus(w.disk, b.expired).present && w.disk.swarm == {}
    ensures var e := IssueAndBind(w, device, reason, prior, j, b);
            e.outcome.Ready? ==>
              && e.outcome == Ready(device)
              && b.freshCertificate.Some?
              && e.world.disk.key == Holds(b.freshCertificate.value)
              && e.world.disk.certificate == Holds(b.freshCertificate.value)
              && e.world.disk.swarm == {}
  {
  }
}

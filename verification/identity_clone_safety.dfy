/**
  A copied disk never joins the swarm as its source, whatever crashes, failing
  helpers and partial readings its boots on the other machine meet.
 */
module CloneSafety {
  import opened Options
  import opened HardwareIdentity
  import opened IdentityModel
  import opened ReadyBoots

  /** What belongs to the machine the disk was copied from. */
  datatype Source = Source(certificates: set<nat>, device: Option<nat>, swarm: set<nat>, nodes: set<nat>)

  ghost predicate FreeOf(certificates: set<nat>, d: Disk) {
    && (d.key.Holds? ==> d.key.n !in certificates)
    && (d.certificate.Holds? ==> d.certificate.n !in certificates)
  }

  ghost predicate OfMachine(truth: Identifiers, e: Evidence) {
    e.components != map[] && ReadFrom(truth, e.components)
  }

  /** No node key of the source is on the disk. */
  ghost predicate Clear(src: Source, d: Disk) {
    d.node.None? || d.node.value !in src.nodes
  }

  /** A client is there to clear the source's node key, if that is on the disk. */
  ghost predicate Clearable(src: Source, d: Disk, b: Boot) {
    b.tailnet == NotInstalled ==> Clear(src, d)
  }

  ghost predicate Room(src: Source, retired: seq<Text>) {
    src.device.Some? ==> |retired| <= HISTORY_LIMIT
  }

  /** Nothing has been decided yet: the disk is bound to other hardware ... */
  ghost predicate Untouched(src: Source, truth: Identifiers, d: Disk) {
    && d.journal.Absent?
    && var loaded := LoadBinding(d.binding);
       && loaded.Bound?
       && loaded.binding.hardware.Some?
       && ForeignTo(truth, loaded.binding.hardware.value.components)
       && Room(src, loaded.binding.retired)
       && (src.device.Some? ==> loaded.binding.device == src.device.value)
  }

  /** ... or it was copied in the middle of a provisioning run on other hardware. */
  ghost predicate HalfMadeElsewhere(src: Source, truth: Identifiers, d: Disk) {
    && TrustedJournal(d).Some?
    && TrustedJournal(d).value.hardware.Some?
    && ForeignTo(truth, TrustedJournal(d).value.hardware.value.components)
    && src.device.None?
  }

  /** This machine's own replacement run is under way. */
  ghost predicate Unfinished(src: Source, truth: Identifiers, d: Disk) {
    && TrustedJournal(d).Some?
    && var j := TrustedJournal(d).value;
       && j.reason in {Clone, OperatorNewIdentity}
       && OfMachine(truth, j.hardware.value)
       && (src.device.Some? ==> j.previousDevice == Id(src.device.value))
       && (src.device.Some? && j.newDevice.Some? ==> j.newDevice.value != Id(src.device.value))
       && (Retired in j.steps ==> FreeOf(src.certificates, d))
       && Room(src, PriorOf(LoadBinding(d.binding)).retired)
  }

  /** The disk carries an identity of this machine's own. */
  ghost predicate Independent(src: Source, truth: Identifiers, d: Disk) {
    && d.journal.Absent?
    && FreeOf(src.certificates, d)
    && d.swarm !! src.swarm
    && var loaded := LoadBinding(d.binding);
       && loaded.Bound?
       && var own := loaded.binding;
          && own.hardware.Some?
          && OfMachine(truth, own.hardware.value)
          && own.fingerprint !in src.certificates
          && (src.device.Some? ==> own.device != src.device.value && Id(src.device.value) in own.retired)
          && (own.tailnetResetPending || Clear(src, d))
  }

  ghost predicate CloneSafe(src: Source, truth: Identifiers, d: Disk) {
    && d.authorization.None?
    && (Untouched(src, truth, d) || HalfMadeElsewhere(src, truth, d) || Unfinished(src, truth, d) || Independent(src, truth, d))
  }

  ghost predicate SafeTrace(src: Source, truth: Identifiers, w: World) {
    forall i | 0 <= i < |w.trace| :: CloneSafe(src, truth, w.trace[i])
  }

  /** The random keys and ids of this boot are new, and its reading is this machine's. */
  ghost predicate Admissible(src: Source, truth: Identifiers, b: Boot) {
    && ReadFrom(truth, b.reading.evidence.components)
    && (b.freshCertificate.Some? ==> b.freshCertificate.value !in src.certificates)
    && (src.device.Some? ==> b.freshDevice != src.device.value)
  }

  // ------------------------------------------------- the steps of one boot

  /** A replacement run in progress that has left only safe disks behind. */
  ghost predicate Going(src: Source, truth: Identifiers, w: World) {
    && SafeTrace(src, truth, w)
    && w.disk.authorization.None?
    && Unfinished(src, truth, w.disk)
  }

  /** Writes to files that neither the journal nor the binding describe. */
  lemma FileStep(src: Source, truth: Identifiers, w: World, d: Disk)
    requires Going(src, truth, w)
    requires d.journal == w.disk.journal && d.binding == w.disk.binding && d.authorization == w.disk.authorization
    requires FreeOf(src.certificates, d) || (d.key == w.disk.key && d.certificate == w.disk.certificate)
             || Retired !in w.disk.journal.value.steps
    ensures Going(src, truth, w.Put(d))
  {
    assert TrustedJournal(d) == TrustedJournal(w.disk);
    assert Unfinished(src, truth, d);
  }

  lemma JournalStep(src: Source, truth: Identifiers, w: World, j: Journal)
    requires Going(src, truth, w)
    requires var before := w.disk.journal.value;
             && j == before.(state := Provisioning, newDevice := j.newDevice, steps := j.steps, tailnet := j.tailnet)
    requires j.newDevice.Some? ==> j.newDevice.value.Id? && (src.device.Some? ==> j.newDevice.value != Id(src.device.value))
    requires Retired in j.steps ==> FreeOf(src.certificates, w.disk)
    ensures Going(src, truth, w.PutJournal(j))
  {
    var d := w.disk.(journal := Object(j));
    assert TrustedJournal(d) == Some(j);
    assert Unfinished(src, truth, d);
  }

  lemma RetiringIsSafe(src: Source, truth: Identifiers, w: World, b: Boot)
    requires Going(src, truth, w)
    ensures var w' := RetireOldIdentity(w, w.disk.journal.value, b);
            && Going(src, truth, w')
            && w'.disk == w.disk.(key := w'.disk.key, certificate := w'.disk.certificate)
            && FreeOf(src.certificates, w'.disk)
  {
    var j := w.disk.journal.value;
    var current := PairStatus(w.disk, b.expired);
    if current.present && (Retired !in j.steps || !current.valid || current.fingerprint == j.previousFingerprint) {
      var w1 := WipeKey(w);
      if w.disk.key != Missing {
        FileStep(src, truth, w, w.disk.(key := Damaged));
        var m := w.Put(w.disk.(key := Damaged));
        FileStep(src, truth, m, m.disk.(key := Missing));
      }
      if w1.disk.certificate != Missing {
        FileStep(src, truth, w1, w1.disk.(certificate := Damaged));
        var m := w1.Put(w1.disk.(certificate := Damaged));
        FileStep(src, truth, m, m.disk.(certificate := Missing));
      }
    }
  }

  /** The new binding first, the journal last: neither order of crash revives the source. */
  lemma CommitIsSafe(src: Source, truth: Identifiers, w: World, device: nat, prior: Prior, fingerprint: nat, b: Boot)
    requires Going(src, truth, w) && Retired in w.disk.journal.value.steps
    requires OfMachine(truth, b.reading.evidence)
    requires Room(src, prior.retired) && (src.device.Some? ==> device != src.device.value)
    requires fingerprint !in src.certificates && w.disk.swarm !! src.swarm
    requires w.disk.journal.value.tailnet == Some(Held) || Clear(src, w.disk)
    ensures var j := w.disk.journal.value;
            var w' := CommitBinding(w, device, j.reason, prior, j, fingerprint, b);
            SafeTrace(src, truth, w') && CloneSafe(src, truth, w'.disk) && Independent(src, truth, w'.disk)
  {
    var j := w.disk.journal.value;
    var retired := RetiredAfter(prior.retired, j.reason, device, j);
    if src.device.Some? {
      RetiredIsRemembered(prior.retired, j.reason, device, j);
    }
    var own := NewBinding(device, b.reading.evidence, fingerprint, b.freshInstallation, retired, j.tailnet == Some(Held));
    BindingStep(src, truth, w, own);
    var w1 := w.PutBinding(own);
    SettlingStep(src, truth, w1, own);
    var w2 := w1.Put(w1.disk.(journal := Absent));
    assert Independent(src, truth, w2.disk.(recovery := Absent));
  }

  lemma BindingStep(src: Source, truth: Identifiers, w: World, own: Binding)
    requires Going(src, truth, w) && own.installation.Id? && Room(src, own.retired)
    ensures Going(src, truth, w.PutBinding(own))
    ensures LoadBinding(w.PutBinding(own).disk.binding) == Bound(own)
  {
    LoadInvertsSave(own);
    var d := w.disk.(binding := Object(Document(own)));
    assert TrustedJournal(d) == TrustedJournal(w.disk);
    assert Unfinished(src, truth, d);
  }

  lemma SettlingStep(src: Source, truth: Identifiers, w: World, own: Binding)
    requires Going(src, truth, w) && LoadBinding(w.disk.binding) == Bound(own)
    requires FreeOf(src.certificates, w.disk) && w.disk.swarm !! src.swarm
    requires own.hardware.Some? && OfMachine(truth, own.hardware.value) && own.fingerprint !in src.certificates
    requires src.device.Some? ==> own.device != src.device.value && Id(src.device.value) in own.retired
    requires own.tailnetResetPending || Clear(src, w.disk)
    ensures var w' := w.Put(w.disk.(journal := Absent));
            SafeTrace(src, truth, w') && w'.disk.authorization.None? && Independent(src, truth, w'.disk)
  {
    assert Independent(src, truth, w.disk.(journal := Absent));
  }

  lemma RetiredIsRemembered(retired: seq<Text>, reason: Reason, device: nat, j: Journal)
    requires |retired| <= HISTORY_LIMIT && reason != Initial
    requires j.previousDevice.Id? && j.previousDevice != Id(device)
    ensures var after := RetiredAfter(retired, reason, device, j);
            |after| <= HISTORY_LIMIT && j.previousDevice in after
  {
    if j.previousDevice !in retired {
      var longer := retired + [j.previousDevice];
      assert longer[|longer| - 1] == j.previousDevice;
      assert LastOf(longer)[|LastOf(longer)| - 1] == j.previousDevice;
    }
  }

  lemma IssuingIsSafe(src: Source, truth: Identifiers, w: World, b: Boot)
    requires Going(src, truth, w) && Admissible(src, truth, b) && b.freshCertificate.Some?
    requires FreeOf(src.certificates, w.disk)
    ensures var w' := GenerateCertificate(w, b.freshCertificate.value);
            && Going(src, truth, w')
            && w'.disk == w.disk.(key := w'.disk.key, certificate := w'.disk.certificate)
            && FreeOf(src.certificates, w'.disk)
  {
    FileStep(src, truth, w, w.disk.(key := Holds(b.freshCertificate.value)));
    var m := w.Put(w.disk.(key := Holds(b.freshCertificate.value)));
    FileStep(src, truth, m, m.disk.(certificate := Holds(b.freshCertificate.value)));
  }

  lemma BindingIsSafe(src: Source, truth: Identifiers, w: World, device: nat, prior: Prior, b: Boot)
    requires Going(src, truth, w) && Retired in w.disk.journal.value.steps && w.disk.journal.value.state == Provisioning
    requires Admissible(src, truth, b) && b.reading.evidence.components != map[]
    requires Room(src, prior.retired) && (src.device.Some? ==> device != src.device.value)
    requires w.disk.swarm == {}
    requires w.disk.journal.value.tailnet == Some(Held) || Clear(src, w.disk)
    ensures var j := w.disk.journal.value;
            var e := IssueAndBind(w, device, j.reason, prior, j, b);
            && SafeTrace(src, truth, e.world) && CloneSafe(src, truth, e.world.disk)
            && (e.outcome.Ready? ==> Independent(src, truth, e.world.disk) && e.outcome.device == device)
  {
    var j := w.disk.journal.value;
    var current := PairStatus(w.disk, b.expired);
    var keep := current.valid && current.fingerprint != j.previousFingerprint;
    if keep || b.freshCertificate.Some? {
      var w1 := if keep then w else GenerateCertificate(w, b.freshCertificate.value);
      if !keep {
        IssuingIsSafe(src, truth, w, b);
      }
      IssuedIsSafe(src, truth, w1, device, prior, b);
    }
  }

  lemma IssuedIsSafe(src: Source, truth: Identifiers, w: World, device: nat, prior: Prior, b: Boot)
    requires Going(src, truth, w) && Retired in w.disk.journal.value.steps && w.disk.journal.value.state == Provisioning
    requires Admissible(src, truth, b) && b.reading.evidence.components != map[]
    requires Room(src, prior.retired) && (src.device.Some? ==> device != src.device.value)
    requires w.disk.swarm == {}
    requires w.disk.journal.value.tailnet == Some(Held) || Clear(src, w.disk)
    ensures CloneSafe(src, truth, w.disk)
    ensures var j := w.disk.journal.value;
            var pair := PairStatus(w.disk, b.expired);
            var w1 := w.PutJournal(j.(steps := j.steps + {CertificateIssued}));
            pair.valid ==>
              var w' := CommitBinding(w1, device, j.reason, prior, w1.disk.journal.value, pair.fingerprint.n, b);
              SafeTrace(src, truth, w') && CloneSafe(src, truth, w'.disk) && Independent(src, truth, w'.disk)
  {
    var j := w.disk.journal.value;
    var pair := PairStatus(w.disk, b.expired);
    if pair.valid {
      var j6 := j.(steps := j.steps + {CertificateIssued});
      JournalStep(src, truth, w, j6);
      CommitIsSafe(src, truth, w.PutJournal(j6), device, prior, pair.fingerprint.n, b);
    }
  }

  lemma ReplacingIsSafe(src: Source, truth: Identifiers, w: World, prior: Prior, b: Boot)
    requires Going(src, truth, w) && w.disk.journal.value.state == Provisioning
    requires Clearable(src, w.disk, b)
    requires Admissible(src, truth, b) && b.reading.evidence.components != map[] && Room(src, prior.retired)
    ensures var j := w.disk.journal.value;
            var e := ReplaceIdentity(w, j.reason, prior, j, b);
            && SafeTrace(src, truth, e.world) && CloneSafe(src, truth, e.world.disk)
            && (e.outcome.Ready? ==> Independent(src, truth, e.world.disk) && src.device != Some(e.outcome.device))
  {
    var j1 := w.disk.journal.value;
    RetiringIsSafe(src, truth, w, b);
    var w2 := RetireOldIdentity(w, j1, b);
    var j2 := j1.(steps := j1.steps + {Retired});
    JournalStep(src, truth, w2, j2);
    var w3 := w2.PutJournal(j2);
    FileStep(src, truth, w3, w3.disk.(swarm := SwarmAfterReset(w3.disk.swarm, b)));
    var w4 := w3.Put(w3.disk.(swarm := SwarmAfterReset(w3.disk.swarm, b)));
    if b.reset != Raises {
      var j3 := j2.(steps := j2.steps + {SwarmReset});
      JournalStep(src, truth, w4, j3);
      var w5 := w4.PutJournal(j3);
      if b.reset == Complete {
        NamingIsSafe(src, truth, w5, prior, b);
      }
    }
  }

  lemma NamingIsSafe(src: Source, truth: Identifiers, w: World, prior: Prior, b: Boot)
    requires Going(src, truth, w) && Retired in w.disk.journal.value.steps && w.disk.journal.value.state == Provisioning
    requires Clearable(src, w.disk, b)
    requires Admissible(src, truth, b) && b.reading.evidence.components != map[] && Room(src, prior.retired)
    requires w.disk.swarm == {}
    ensures var j := w.disk.journal.value;
            var (w1, chosen) := ChooseDevice(w, j, b);
            if chosen.None? then SafeTrace(src, truth, w1) && CloneSafe(src, truth, w1.disk)
            else
              var e := NameAndDetach(w1, chosen.value, j.reason, prior, j, b);
              && SafeTrace(src, truth, e.world) && CloneSafe(src, truth, e.world.disk)
              && (e.outcome.Ready? ==> Independent(src, truth, e.world.disk) && src.device != Some(e.outcome.device))
  {
    ChoosingIsSafe(src, truth, w, b);
    var (w1, chosen) := ChooseDevice(w, w.disk.journal.value, b);
    if chosen.Some? {
      DetachingIsSafe(src, truth, w1, chosen.value, prior, b);
    }
  }

  lemma ChoosingIsSafe(src: Source, truth: Identifiers, w: World, b: Boot)
    requires Going(src, truth, w) && Admissible(src, truth, b)
    ensures var (w', chosen) := ChooseDevice(w, w.disk.journal.value, b);
            && Going(src, truth, w')
            && w'.disk == w.disk.(deviceFile := w'.disk.deviceFile)
            && (chosen.Some? && src.device.Some? ==> chosen.value != src.device.value)
  {
    if w.disk.journal.value.newDevice.None? {
      FileStep(src, truth, w, w.disk.(deviceFile := None));
      var w1 := w.Put(w.disk.(deviceFile := None));
      FileStep(src, truth, w1, w1.disk.(deviceFile := Some(b.freshDevice)));
    }
  }

  lemma DetachingIsSafe(src: Source, truth: Identifiers, w: World, device: nat, prior: Prior, b: Boot)
    requires Going(src, truth, w) && Retired in w.disk.journal.value.steps && w.disk.journal.value.state == Provisioning
    requires Clearable(src, w.disk, b)
    requires Admissible(src, truth, b) && b.reading.evidence.components != map[] && Room(src, prior.retired)
    requires w.disk.swarm == {} && (src.device.Some? ==> device != src.device.value)
    ensures var j := w.disk.journal.value;
            var e := NameAndDetach(w, device, j.reason, prior, j, b);
            && SafeTrace(src, truth, e.world) && CloneSafe(src, truth, e.world.disk)
            && (e.outcome.Ready? ==> Independent(src, truth, e.world.disk) && e.outcome.device == device)
  {
    var j := w.disk.journal.value;
    var j4 := j.(newDevice := Some(Id(device)));
    JournalStep(src, truth, w, j4);
    var w7 := w.PutJournal(j4);
    FileStep(src, truth, w7, w7.disk.(node := NodeAfter(w7.disk.node, b.tailnet)));
    var w8 := w7.Put(w7.disk.(node := NodeAfter(w7.disk.node, b.tailnet)));
    var status := ConfirmedTailnet(b);
    if status.Some? {
      var j5 := j4.(steps := j4.steps + {TailnetCleared}, tailnet := status);
      JournalStep(src, truth, w8, j5);
      BindingIsSafe(src, truth, w8.PutJournal(j5), device, prior, b);
    }
  }

  // --------------------------------------------------- the boot decision

  /** A run that starts now writes a journal of this machine's own before it destroys anything. */
  lemma StartingIsSafe(src: Source, truth: Identifiers, w: World, reason: Reason, prior: Prior, b: Boot)
    requires SafeTrace(src, truth, w) && w.disk.authorization.None?
    requires Clearable(src, w.disk, b)
    requires reason in {Clone, OperatorNewIdentity} && OfMachine(truth, b.reading.evidence) && Admissible(src, truth, b)
    requires prior.fingerprint !in {NotText, Garbled} && prior.device != NotText && prior.installation != NotText
    requires src.device.Some? ==> prior.device == Id(src.device.value)
    requires Room(src, prior.retired) && Room(src, PriorOf(LoadBinding(w.disk.binding)).retired)
    ensures var e := Provision(w, b.settingsDevice, reason, prior, None, b);
            && SafeTrace(src, truth, e.world) && CloneSafe(src, truth, e.world.disk)
            && (e.outcome.Ready? ==> Independent(src, truth, e.world.disk) && src.device != Some(e.outcome.device))
  {
    var j0 := NewJournal(w.disk, b.settingsDevice, reason, prior, b);
    var w0 := w.PutJournal(j0);
    assert TrustedJournal(w0.disk) == Some(j0);
    assert Unfinished(src, truth, w0.disk);
    var j1 := j0.(state := Provisioning);
    JournalStep(src, truth, w0, j1);
    ReplacingIsSafe(src, truth, w0.PutJournal(j1), prior, b);
  }

  lemma ResumingIsSafe(src: Source, truth: Identifiers, w: World, b: Boot)
    requires Going(src, truth, w) && Admissible(src, truth, b) && b.reading.evidence.components != map[]
    requires Clearable(src, w.disk, b)
    ensures var j := w.disk.journal.value;
            var e := Provision(w, b.settingsDevice, j.reason, PriorOf(LoadBinding(w.disk.binding)), Some(j), b);
            && SafeTrace(src, truth, e.world) && CloneSafe(src, truth, e.world.disk)
            && (e.outcome.Ready? ==> Independent(src, truth, e.world.disk) && src.device != Some(e.outcome.device))
  {
    var j := w.disk.journal.value;
    var j1 := j.(state := Provisioning);
    JournalStep(src, truth, w, j1);
    ReplacingIsSafe(src, truth, w.PutJournal(j1), PriorOf(LoadBinding(w.disk.binding)), b);
  }

  /** CloneSafe says nothing about the recovery marker. */
  lemma MarkerStep(src: Source, truth: Identifiers, d: Disk, marker: Json<Marker>)
    requires CloneSafe(src, truth, d)
    ensures CloneSafe(src, truth, d.(recovery := marker))
    ensures Independent(src, truth, d) ==> Independent(src, truth, d.(recovery := marker))
  {
    var m := d.(recovery := marker);
    assert TrustedJournal(m) == TrustedJournal(d);
  }

  lemma HoldingIsSafe(src: Source, truth: Identifiers, w: World, reason: RecoveryReason, b: Boot)
    requires SafeTrace(src, truth, w) && CloneSafe(src, truth, w.disk)
    ensures var e := EnterRecovery(w, reason, b);
            SafeTrace(src, truth, e.world) && CloneSafe(src, truth, e.world.disk)
  {
    MarkerStep(src, truth, w.disk, EnterRecovery(w, reason, b).world.disk.recovery);
  }

  /** An identity of this machine's own that has left only safe disks behind. */
  ghost predicate Standing(src: Source, truth: Identifiers, w: World) {
    && SafeTrace(src, truth, w)
    && w.disk.authorization.None?
    && Independent(src, truth, w.disk)
  }

  lemma SavingStep(src: Source, truth: Identifiers, w: World, own: Binding)
    requires Standing(src, truth, w) && own.installation !in {NotText, Blank}
    requires own.hardware.Some? && OfMachine(truth, own.hardware.value) && own.fingerprint !in src.certificates
    requires src.device.Some? ==> own.device != src.device.value && Id(src.device.value) in own.retired
    requires own.tailnetResetPending || Clear(src, w.disk)
    ensures Standing(src, truth, w.PutBinding(own))
  {
    LoadInvertsSave(own);
    assert Independent(src, truth, w.disk.(binding := Object(Document(own))));
  }

  lemma ReconcilingIsSafe(src: Source, truth: Identifiers, w: World, b: Boot)
    requires Standing(src, truth, w) && Admissible(src, truth, b)
    requires Clearable(src, w.disk, b)
    ensures var e := Verified(w, LoadBinding(w.disk.binding).binding, b);
            && SafeTrace(src, truth, e.world) && CloneSafe(src, truth, e.world.disk)
            && (e.outcome.Ready? ==> Independent(src, truth, e.world.disk) && src.device != Some(e.outcome.device))
  {
    var own := LoadBinding(w.disk.binding).binding;
    var pair := PairStatus(w.disk, b.expired);
    if pair.valid {
      if pair.fingerprint != Id(own.fingerprint) {
        HoldingIsSafe(src, truth, w, CertificateMismatch, b);
      } else {
        ReconcilingDevice(src, truth, w, own, false, b);
      }
    } else if b.freshCertificate.Some? {
      var w1 := GenerateCertificate(w, b.freshCertificate.value);
      var d := w.disk.(key := Holds(b.freshCertificate.value));
      assert Independent(src, truth, d);
      assert Independent(src, truth, w1.disk);
      if PairStatus(w1.disk, b.expired).valid {
        ReconcilingDevice(src, truth, w1, own.(fingerprint := b.freshCertificate.value), true, b);
      }
    }
  }

  ghost predicate Keepable(src: Source, truth: Identifiers, w: World, own: Binding) {
    && own.installation !in {NotText, Blank}
    && own.hardware.Some? && OfMachine(truth, own.hardware.value)
    && own.fingerprint !in src.certificates
    && (src.device.Some? ==> own.device != src.device.value && Id(src.device.value) in own.retired)
    && (own.tailnetResetPending || Clear(src, w.disk))
  }

  lemma ReconcilingDevice(src: Source, truth: Identifiers, w: World, own: Binding, changed: bool, b: Boot)
    requires Standing(src, truth, w) && Keepable(src, truth, w, own)
    requires Clearable(src, w.disk, b)
    requires LoadBinding(w.disk.binding).Bound?
    requires own.tailnetResetPending == LoadBinding(w.disk.binding).binding.tailnetResetPending
    ensures var e := VerifiedDevice(w, own, changed, b);
            && SafeTrace(src, truth, e.world) && CloneSafe(src, truth, e.world.disk)
            && (e.outcome.Ready? ==> Independent(src, truth, e.world.disk) && src.device != Some(e.outcome.device))
  {
    if own.device == b.settingsDevice {
      ReconcilingTailnet(src, truth, w, own, b.settingsDevice, changed, b);
    } else if b.pinned && Id(b.settingsDevice) !in own.retired {
      ReconcilingTailnet(src, truth, w, own.(device := b.settingsDevice), b.settingsDevice, true, b);
    } else {
      var w1 := if b.deviceWritable then w.Put(w.disk.(deviceFile := Some(own.device))) else w;
      assert Independent(src, truth, w1.disk);
      ReconcilingTailnet(src, truth, w1, own, own.device, true, b);
    }
  }

  lemma ReconcilingTailnet(src: Source, truth: Identifiers, w: World, own: Binding, device: nat, changed: bool, b: Boot)
    requires Standing(src, truth, w) && Keepable(src, truth, w, own) && device == own.device
    requires Clearable(src, w.disk, b)
    requires LoadBinding(w.disk.binding).Bound?
    requires own.tailnetResetPending == LoadBinding(w.disk.binding).binding.tailnetResetPending
    ensures var e := VerifiedTailnet(w, own, device, changed, b);
            && SafeTrace(src, truth, e.world) && CloneSafe(src, truth, e.world.disk)
            && (e.outcome.Ready? ==> Independent(src, truth, e.world.disk) && src.device != Some(e.outcome.device))
  {
    if !own.tailnetResetPending {
      SavingStep(src, truth, w, own);
    } else {
      var w1 := w.Put(w.disk.(node := NodeAfter(w.disk.node, b.tailnet)));
      assert Independent(src, truth, w1.disk);
      match b.tailnet {
        case Error => HoldingIsSafe(src, truth, w1, TailnetResetFailed, b);
        case Held => SavingStep(src, truth, w1, own);
        case _ => SavingStep(src, truth, w1, own.(tailnetResetPending := false));
      }
    }
  }

  lemma UntouchedBootIsSafe(src: Source, truth: Identifiers, w: World, b: Boot)
    requires SafeTrace(src, truth, w) && w.disk.authorization.None?
    requires Clearable(src, w.disk, b)
    requires Untouched(src, truth, w.disk) && Admissible(src, truth, b)
    ensures var e := EnsureLocked(w, b);
            && SafeTrace(src, truth, e.world) && CloneSafe(src, truth, e.world.disk)
            && (e.outcome.Ready? ==> Independent(src, truth, e.world.disk) && src.device != Some(e.outcome.device))
  {
    var copied := LoadBinding(w.disk.binding).binding;
    ForeignMachineIsNeverSame(truth, copied.hardware.value, b.reading);
    var verdict := CompareHardware(copied.hardware, b.reading);
    if verdict == Different {
      DifferentExactly(copied.hardware, b.reading);
      StartingIsSafe(src, truth, w, Clone, PriorOf(Bound(copied)), b);
    } else {
      HoldingIsSafe(src, truth, w, if verdict == Insufficient then InsufficientEvidence else ContradictoryEvidence, b);
    }
  }

  lemma JournaledBootIsSafe(src: Source, truth: Identifiers, w: World, b: Boot)
    requires SafeTrace(src, truth, w) && w.disk.authorization.None? && Admissible(src, truth, b)
    requires Clearable(src, w.disk, b)
    requires HalfMadeElsewhere(src, truth, w.disk) || Unfinished(src, truth, w.disk)
    ensures var e := EnsureLocked(w, b);
            && SafeTrace(src, truth, e.world) && CloneSafe(src, truth, e.world.disk)
            && (e.outcome.Ready? ==> Independent(src, truth, e.world.disk) && src.device != Some(e.outcome.device))
  {
    var j := TrustedJournal(w.disk).value;
    var verdict := CompareHardware(j.hardware, b.reading);
    SameExactly(j.hardware, b.reading);
    DifferentExactly(j.hardware, b.reading);
    if HalfMadeElsewhere(src, truth, w.disk) {
      ForeignMachineIsNeverSame(truth, j.hardware.value, b.reading);
    } else {
      FlakySensorsAreNeverDifferent(truth, j.hardware, b.reading);
    }
    if verdict == Same {
      ResumingIsSafe(src, truth, w, b);
    } else if verdict == Different {
      StartingIsSafe(src, truth, w, Clone, PriorForRestart(w.disk, j, LoadBinding(w.disk.binding), b), b);
    } else {
      HoldingIsSafe(src, truth, w, JournalHardwareUnverified, b);
    }
  }

  lemma IndependentBootIsSafe(src: Source, truth: Identifiers, w: World, b: Boot)
    requires Standing(src, truth, w) && Admissible(src, truth, b)
    requires Clearable(src, w.disk, b)
    ensures var e := EnsureLocked(w, b);
            && SafeTrace(src, truth, e.world) && CloneSafe(src, truth, e.world.disk)
            && (e.outcome.Ready? ==> Independent(src, truth, e.world.disk) && src.device != Some(e.outcome.device))
  {
    var own := LoadBinding(w.disk.binding).binding;
    FlakySensorsAreNeverDifferent(truth, own.hardware, b.reading);
    var verdict := CompareHardware(own.hardware, b.reading);
    if verdict == Same {
      MarkerStep(src, truth, w.disk, Absent);
      ReconcilingIsSafe(src, truth, ReleaseAfterRecovery(w), b);
    } else {
      HoldingIsSafe(src, truth, w, if verdict == Insufficient then InsufficientEvidence else ContradictoryEvidence, b);
    }
  }

  /** Every disk state a boot passes through is safe, and a boot that enables networking is independent. */
  lemma BootIsSafe(src: Source, truth: Identifiers, d: Disk, b: Boot)
    requires CloneSafe(src, truth, d) && Admissible(src, truth, b)
    requires Clearable(src, d, b)
    ensures var e := BootExec(d, b);
            && SafeTrace(src, truth, e.world) && CloneSafe(src, truth, e.world.disk)
            && (e.outcome.Ready? ==> Independent(src, truth, e.world.disk) && src.device != Some(e.outcome.device))
  {
    var w := World(d, []);
    if Untouched(src, truth, d) {
      UntouchedBootIsSafe(src, truth, w, b);
    } else if Independent(src, truth, d) {
      IndependentBootIsSafe(src, truth, w, b);
    } else {
      JournaledBootIsSafe(src, truth, w, b);
    }
  }

  // --------------------------------------------------------- whole histories

  /** What happens to the copied disk on the other machine. */
  datatype Event =
    | Booted(boot: Boot, stop: Stop)
    | Paired(rows: set<nat>)          // pairing with new peers while networking is on

  ghost predicate Possible(src: Source, truth: Identifiers, e: Event) {
    match e
    case Booted(b, _) => Admissible(src, truth, b)
    case Paired(rows) => rows !! src.swarm
  }

  function DiskAfter(d: Disk, events: seq<Event>): Disk {
    if events == [] then d
    else
      var before := DiskAfter(d, events[..|events| - 1]);
      match events[|events| - 1]
      case Booted(b, stop) => AfterBoot(before, b, stop)
      case Paired(rows) => before.(swarm := before.swarm + rows)
  }

  /** No boot of this history finds the source's node key and no client to clear it. */
  ghost predicate AlwaysClearable(src: Source, d: Disk, events: seq<Event>) {
    events != [] ==>
      var n := |events| - 1;
      && AlwaysClearable(src, d, events[..n])
      && (events[n].Booted? ==> Clearable(src, DiskAfter(d, events[..n]), events[n].boot))
  }

  lemma {:induction false} EveryHistoryIsSafe(src: Source, truth: Identifiers, d: Disk, events: seq<Event>)
    requires CloneSafe(src, truth, d)
    requires forall i | 0 <= i < |events| :: Possible(src, truth, events[i])
    requires AlwaysClearable(src, d, events)
    ensures CloneSafe(src, truth, DiskAfter(d, events))
  {
    if events != [] {
      var earlier := events[..|events| - 1];
      EveryHistoryIsSafe(src, truth, d, earlier);
      var before := DiskAfter(d, earlier);
      match events[|events| - 1] {
        case Booted(b, stop) =>
          BootIsSafe(src, truth, before, b);
          StoppingIsSafe(src, truth, before, b, stop);
        case Paired(rows) =>
          PairingIsSafe(src, truth, before, rows);
      }
    }
  }

  lemma PairingIsSafe(src: Source, truth: Identifiers, d: Disk, rows: set<nat>)
    requires CloneSafe(src, truth, d) && rows !! src.swarm
    ensures CloneSafe(src, truth, d.(swarm := d.swarm + rows))
  {
    assert TrustedJournal(d.(swarm := d.swarm + rows)) == TrustedJournal(d);
  }

  lemma StoppingIsSafe(src: Source, truth: Identifiers, d: Disk, b: Boot, stop: Stop)
    requires CloneSafe(src, truth, d)
    requires SafeTrace(src, truth, BootExec(d, b).world) && CloneSafe(src, truth, BootExec(d, b).world.disk)
    ensures CloneSafe(src, truth, AfterBoot(d, b, stop))
  {
    var e := BootExec(d, b);
    var left := match stop
      case Finished => e.world.disk
      case PowerLoss(n) => DiskAfterWrites(d, e.world.trace, n)
      case Failure(n, _) => DiskAfterWrites(d, e.world.trace, n);
    assert CloneSafe(src, truth, left);
    MarkerStep(src, truth, left, MarkFailed(left).recovery);
  }

  /** The same source, as far as anything but its node key goes. */
  function Nodeless(src: Source): Source {
    src.(nodes := {})
  }

  lemma SafeButForTheNode(src: Source, truth: Identifiers, d: Disk)
    requires CloneSafe(src, truth, d)
    ensures CloneSafe(Nodeless(src), truth, d)
  {
    if Independent(src, truth, d) {
      assert Independent(Nodeless(src), truth, d);
    }
  }

  lemma {:induction false} NodelessIsAlwaysClearable(src: Source, d: Disk, events: seq<Event>)
    ensures AlwaysClearable(Nodeless(src), d, events)
  {
    if events != [] {
      NodelessIsAlwaysClearable(src, d, events[..|events| - 1]);
    }
  }

  lemma EveryHistoryIsSafeButForTheNode(src: Source, truth: Identifiers, d: Disk, events: seq<Event>)
    requires d.authorization.None?
    requires Untouched(src, truth, d) || HalfMadeElsewhere(src, truth, d)
    requires forall i | 0 <= i < |events| :: Possible(src, truth, events[i])
    ensures CloneSafe(Nodeless(src), truth, DiskAfter(d, events))
  {
    NodelessIsAlwaysClearable(src, d, events);
    forall i | 0 <= i < |events|
      ensures Possible(Nodeless(src), truth, events[i])
    {
      assert Possible(src, truth, events[i]);
    }
    EveryHistoryIsSafe(Nodeless(src), truth, d, events);
  }

  /**
    The main result. However often the copied disk is booted on a machine that
    shares no identifier with the recorded one, a boot that switches swarm
    networking on leaves a key and certificate, a device id and a swarm that are
    not the source's.
   */
  lemma ACloneNeverJoinsAsItsSource(src: Source, truth: Identifiers, d: Disk, events: seq<Event>, b: Boot, stop: Stop)
    requires d.authorization.None?
    requires Untouched(src, truth, d) || HalfMadeElsewhere(src, truth, d)
    requires forall i | 0 <= i < |events| :: Possible(src, truth, events[i])
    requires Admissible(src, truth, b)
    requires NetworkingEnabled(DiskAfter(d, events), b, stop)
    ensures var before := DiskAfter(d, events);
            var after := AfterBoot(before, b, stop);
            && PairStatus(after, b.expired).valid
            && FreeOf(src.certificates, after)
            && src.device != Some(BootExec(before, b).outcome.device)
            && after.swarm !! src.swarm
  {
    EveryHistoryIsSafeButForTheNode(src, truth, d, events);
    BootIsSafe(Nodeless(src), truth, DiskAfter(d, events), b);
    ReadyIsCoherent(DiskAfter(d, events), b);
  }

  // --------------------------------------------------------- the tailnet node

  lemma AnOpenGateIsIndependent(src: Source, truth: Identifiers, d: Disk, settingsDevice: nat, reading: Reading, expired: set<nat>)
    requires CloneSafe(src, truth, d) && ReadFrom(truth, reading.evidence.components)
    requires TailnetStartPermitted(d, settingsDevice, reading, expired)
    ensures Independent(src, truth, d)
  {
    if Untouched(src, truth, d) {
      ForeignMachineIsNeverSame(truth, LoadBinding(d.binding).binding.hardware.value, reading);
    }
  }

  /**
    The tailnet service is never let loose on the source's certificate or
    device id; nor on its node key, if some client was there to clear it
    whenever a boot found it.
   */
  lemma TheTailnetGateIsClosedToTheSourceNode(src: Source, truth: Identifiers, d: Disk, events: seq<Event>,
                                              settingsDevice: nat, reading: Reading, expired: set<nat>)
    requires d.authorization.None?
    requires Untouched(src, truth, d) || HalfMadeElsewhere(src, truth, d)
    requires forall i | 0 <= i < |events| :: Possible(src, truth, events[i])
    requires ReadFrom(truth, reading.evidence.components)
    ensures var now := DiskAfter(d, events);
            TailnetStartPermitted(now, settingsDevice, reading, expired) ==>
              && FreeOf(src.certificates, now)
              && src.device != Some(settingsDevice)
              && (AlwaysClearable(src, d, events) ==> Clear(src, now))
  {
    var now := DiskAfter(d, events);
    EveryHistoryIsSafeButForTheNode(src, truth, d, events);
    if TailnetStartPermitted(now, settingsDevice, reading, expired) {
      AnOpenGateIsIndependent(Nodeless(src), truth, now, settingsDevice, reading, expired);
      if AlwaysClearable(src, d, events) {
        EveryHistoryIsSafe(src, truth, d, events);
        AnOpenGateIsIndependent(src, truth, now, settingsDevice, reading, expired);
      }
    }
  }

  /** An identity of this machine's own over the source's node key, which nothing marks as still to be cleared. */
  ghost predicate Exposed(src: Source, truth: Identifiers, d: Disk) {
    Independent(Nodeless(src), truth, d) && !Independent(src, truth, d)
  }

  /**
    Exactly when that condition matters: a boot that ends READY exposes the
    source's node key if and only if the key was there and either no client was
    installed or it had been exposed before.
   */
  lemma AReadyBootExposesTheNodeExactly(src: Source, truth: Identifiers, d: Disk, b: Boot)
    requires CloneSafe(Nodeless(src), truth, d) && Admissible(src, truth, b)
    requires BootExec(d, b).outcome.Ready?
    ensures Exposed(src, truth, BootExec(d, b).world.disk) <==>
              !Clear(src, d) && (b.tailnet == NotInstalled || Exposed(src, truth, d))
  {
    BootIsSafe(Nodeless(src), truth, d, b);
    if Independent(Nodeless(src), truth, d) {
      ReconciledNode(src, truth, d, b);
      ExposureAfterReconciling(src, truth, d, BootExec(d, b).world.disk, b);
    } else {
      ReplacedNode(src, truth, d, b);
      ExposureAfterReplacing(src, truth, d, BootExec(d, b), b);
    }
  }

  lemma ExposureAfterReplacing(src: Source, truth: Identifiers, d: Disk, e: Exec, b: Boot)
    requires e.outcome.Ready? && Independent(Nodeless(src), truth, e.world.disk) && Detached(e, d.node, b)
    ensures Exposed(src, truth, e.world.disk) <==> !Clear(src, d) && b.tailnet == NotInstalled
  {
  }

  lemma ExposureAfterReconciling(src: Source, truth: Identifiers, d: Disk, after: Disk, b: Boot)
    requires Independent(Nodeless(src), truth, d) && Independent(Nodeless(src), truth, after)
    requires var before := LoadBinding(d.binding).binding;
             && after.node == (if before.tailnetResetPending then NodeAfter(d.node, b.tailnet) else d.node)
             && (LoadBinding(after.binding).binding.tailnetResetPending <==> before.tailnetResetPending && b.tailnet == Held)
    requires LoadBinding(d.binding).binding.tailnetResetPending ==> b.tailnet != Error
    ensures Exposed(src, truth, after) <==> !Clear(src, d) && (b.tailnet == NotInstalled || Exposed(src, truth, d))
  {
  }

  lemma ReplacedNode(src: Source, truth: Identifiers, d: Disk, b: Boot)
    requires CloneSafe(Nodeless(src), truth, d) && !Independent(Nodeless(src), truth, d) && Admissible(src, truth, b)
    requires BootExec(d, b).outcome.Ready?
    ensures Detached(BootExec(d, b), d.node, b)
  {
    var w := World(d, []);
    var loaded := LoadBinding(d.binding);
    if Untouched(Nodeless(src), truth, d) {
      ForeignMachineIsNeverSame(truth, loaded.binding.hardware.value, b.reading);
      ReplacingDetaches(w, b.settingsDevice, Clone, PriorOf(loaded), None, b);
    } else {
      var j := TrustedJournal(d).value;
      if CompareHardware(j.hardware, b.reading) == Same {
        if HalfMadeElsewhere(Nodeless(src), truth, d) {
          ForeignMachineIsNeverSame(truth, j.hardware.value, b.reading);
        }
        ReplacingDetaches(w, b.settingsDevice, j.reason, PriorOf(loaded), Some(j), b);
      } else {
        ReplacingDetaches(w, b.settingsDevice, Clone, PriorForRestart(d, j, loaded, b), None, b);
      }
    }
  }

  lemma ReconciledNode(src: Source, truth: Identifiers, d: Disk, b: Boot)
    requires CloneSafe(Nodeless(src), truth, d) && Independent(Nodeless(src), truth, d) && Admissible(src, truth, b)
    requires BootExec(d, b).outcome.Ready?
    ensures var before, after := LoadBinding(d.binding).binding, BootExec(d, b).world.disk;
            && after.node == (if before.tailnetResetPending then NodeAfter(d.node, b.tailnet) else d.node)
            && LoadBinding(after.binding).Bound?
            && (LoadBinding(after.binding).binding.tailnetResetPending <==> before.tailnetResetPending && b.tailnet == Held)
            && (before.tailnetResetPending ==> b.tailnet != Error)
  {
    var own := LoadBinding(d.binding).binding;
    FlakySensorsAreNeverDifferent(truth, own.hardware, b.reading);
    ReconciledTailnet(ReleaseAfterRecovery(World(d, [])), own, b);
  }

  lemma ReconciledTailnet(w: World, own: Binding, b: Boot)
    requires LoadBinding(w.disk.binding) == Bound(own) && Verified(w, own, b).outcome.Ready?
    ensures var after := Verified(w, own, b).world.disk;
            && after.node == (if own.tailnetResetPending then NodeAfter(w.disk.node, b.tailnet) else w.disk.node)
            && LoadBinding(after.binding).Bound?
            && (LoadBinding(after.binding).binding.tailnetResetPending <==> own.tailnetResetPending && b.tailnet == Held)
            && (own.tailnetResetPending ==> b.tailnet != Error)
  {
    if PairStatus(w.disk, b.expired).valid {
      ReconciledFrom(w, own, false, b);
    } else {
      ReconciledFrom(GenerateCertificate(w, b.freshCertificate.value), own.(fingerprint := b.freshCertificate.value), true, b);
    }
  }

  lemma ReconciledFrom(w: World, own: Binding, changed: bool, b: Boot)
    requires own.installation !in {NotText, Blank} && VerifiedDevice(w, own, changed, b).outcome.Ready?
    requires !changed ==> LoadBinding(w.disk.binding) == Bound(own)
    ensures var after := VerifiedDevice(w, own, changed, b).world.disk;
            && after.node == (if own.tailnetResetPending then NodeAfter(w.disk.node, b.tailnet) else w.disk.node)
            && LoadBinding(after.binding).Bound?
            && (LoadBinding(after.binding).binding.tailnetResetPending <==> own.tailnetResetPending && b.tailnet == Held)
            && (own.tailnetResetPending ==> b.tailnet != Error)
  {
    if own.device == b.settingsDevice {
      ReconciledSave(w, own, b.settingsDevice, changed, b);
    } else if b.pinned && Id(b.settingsDevice) !in own.retired {
      ReconciledSave(w, own.(device := b.settingsDevice), b.settingsDevice, true, b);
    } else {
      var w1 := if b.deviceWritable then w.Put(w.disk.(deviceFile := Some(own.device))) else w;
      ReconciledSave(w1, own, own.device, true, b);
    }
  }

  lemma ReconciledSave(w: World, own: Binding, device: nat, changed: bool, b: Boot)
    requires own.installation !in {NotText, Blank} && VerifiedTailnet(w, own, device, changed, b).outcome.Ready?
    requires !changed ==> LoadBinding(w.disk.binding) == Bound(own)
    ensures var after := VerifiedTailnet(w, own, device, changed, b).world.disk;
            && after.node == (if own.tailnetResetPending then NodeAfter(w.disk.node, b.tailnet) else w.disk.node)
            && LoadBinding(after.binding).Bound?
            && (LoadBinding(after.binding).binding.tailnetResetPending <==> own.tailnetResetPending && b.tailnet == Held)
            && (own.tailnetResetPending ==> b.tailnet != Error)
  {
    LoadInvertsSave(own);
    LoadInvertsSave(own.(tailnetResetPending := false));
  }

  /** What that means for the gate: it then opens, for this boot's own reading, over the source's node key. */
  lemma AnUninstalledClientLeavesTheSourceNode(src: Source, truth: Identifiers, d: Disk, b: Boot)
    requires d.authorization.None? && Untouched(src, truth, d) && !Clear(src, d) && Admissible(src, truth, b)
    requires BootExec(d, b).outcome.Ready?
    ensures var after := BootExec(d, b).world.disk;
            TailnetStartPermitted(after, BootExec(d, b).outcome.device, b.reading, b.expired) && !Clear(src, after)
            <==> b.tailnet == NotInstalled
  {
    var loaded := LoadBinding(d.binding);
    ForeignMachineIsNeverSame(truth, loaded.binding.hardware.value, b.reading);
    DifferentExactly(loaded.binding.hardware, b.reading);
    ReplacingDetaches(World(d, []), b.settingsDevice, Clone, PriorOf(loaded), None, b);
    ProvisioningOpensTheGate(World(d, []), b.settingsDevice, Clone, PriorOf(loaded), None, b, BootExec(d, b));
  }

  /** A disk and a boot for which all of that is so. */
  lemma SuchABootExists() returns (src: Source, truth: Identifiers, d: Disk, b: Boot)
    ensures d.authorization.None? && Untouched(src, truth, d) && !Clear(src, d) && Admissible(src, truth, b)
    ensures BootExec(d, b).outcome.Ready? && b.tailnet == NotInstalled
  {
    var theirs := Evidence(map[ProductUuid := 1], FINGERPRINT_VERSION);
    truth := map[ProductUuid := 2];
    src := Source({10}, Some(20), {30}, {40});
    var bound := Binding(Id(0), 20, 10, Some(theirs), [], false);
    d := Disk(Holds(10), Holds(10), Some(20), Object(Document(bound)), Absent, Absent, None, {30}, Some(40));
    b := Boot(Reading(Evidence(truth, FINGERPRINT_VERSION), false), 20, false, 0, {}, Some(11), 21, true, 1,
              Complete, {}, NotInstalled, true);
    LoadInvertsSave(bound);
    DifferentMachines(theirs, b.reading);
    AReplacementWithWorkingHelpersSucceeds(World(d, []), 20, PriorOf(Bound(bound)), b);
    BootOfAClone(d, bound, b);
  }

  lemma DifferentMachines(recorded: Evidence, reading: Reading)
    requires recorded == Evidence(map[ProductUuid := 1], FINGERPRINT_VERSION)
    requires reading == Reading(Evidence(map[ProductUuid := 2], FINGERPRINT_VERSION), false)
    ensures CompareHardware(Some(recorded), reading) == Different
  {
    assert ProductUuid in Comparable(PRIMARY, recorded.components, reading.evidence.components);
  }

  lemma BootOfAClone(d: Disk, bound: Binding, b: Boot)
    requires d.journal.Absent? && d.authorization.None? && LoadBinding(d.binding) == Bound(bound)
    requires CompareHardware(bound.hardware, b.reading) == Different
    ensures BootExec(d, b) == Provision(World(d, []), b.settingsDevice, Clone, PriorOf(Bound(bound)), None, b)
  {
    DifferentExactly(bound.hardware, b.reading);
  }

  lemma AReplacementWithWorkingHelpersSucceeds(w: World, device: nat, prior: Prior, b: Boot)
    requires b.reset == Complete && b.tailnet == NotInstalled
    requires b.freshCertificate.Some? && b.freshCertificate.value !in b.expired
    requires Id(b.freshCertificate.value) != prior.fingerprint && prior.fingerprint != Blank
    ensures Provision(w, device, Clone, prior, None, b).outcome.Ready?
  {
  }
}

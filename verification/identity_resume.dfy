/**
  An interrupted provisioning run resumes and converges: it keeps the first new
  device id it journaled and the first certificate of its own it generated.
 */
module Resumption {
  import opened Options
  import opened HardwareIdentity
  import opened IdentityModel

  /** The usable certificate this run has already made (or, on a first install, found). */
  function OwnCertificate(d: Disk): Option<nat> {
    match TrustedJournal(d)
    case Some(j) =>
      if d.key.Holds? && d.key == d.certificate && (j.reason == Initial || (Retired in j.steps && Id(d.key.n) != j.previousFingerprint))
      then Some(d.key.n) else None
    case None => None
  }

  /** A later journal of the same run. */
  predicate Continues(first: Journal, later: Journal) {
    && later == first.(state := later.state, newDevice := later.newDevice, steps := later.steps, tailnet := later.tailnet)
    && first.steps <= later.steps
    && (first.newDevice.Some? ==> later.newDevice == first.newDevice)
    && ValidJournal(later)
  }

  /**
    A run as it stood at some point: its journal, its own certificate if it had
    one, and the evidence that all its boots read, if they all read the same.
   */
  datatype Course = Course(first: Journal, own: Option<nat>, evidence: Option<Evidence>)

  ghost predicate Reads(c: Course, b: Boot) {
    c.evidence.Some? ==> b.reading.evidence == c.evidence.value && b.reading.Usable()
  }

  /** The run has committed its binding. */
  ghost predicate Landed(c: Course, d: Disk) {
    && d.journal.Absent?
    && LoadBinding(d.binding).Bound?
    && var bound := LoadBinding(d.binding).binding;
       && d.key == d.certificate == Holds(bound.fingerprint)
       && (c.first.newDevice.Some? ==> Id(bound.device) == c.first.newDevice.value)
       && (c.own.Some? ==> bound.fingerprint == c.own.value)
       && (c.evidence.Some? ==> bound.hardware == c.evidence)
  }

  /** A disk that run may leave behind. */
  ghost predicate Follows(c: Course, d: Disk) {
    || Landed(c, d)
    || (&& TrustedJournal(d).Some?
        && Continues(c.first, TrustedJournal(d).value)
        && (c.own.Some? ==> OwnCertificate(d) == c.own))
  }

  ghost predicate FollowingTrace(c: Course, start: nat, w: World) {
    && start <= |w.trace|
    && Follows(c, w.disk)
    && forall i | start <= i < |w.trace| :: Follows(c, w.trace[i])
  }

  ghost predicate Under(c: Course, start: nat, w: World) {
    && FollowingTrace(c, start, w)
    && TrustedJournal(w.disk).Some?
    && Continues(c.first, TrustedJournal(w.disk).value)
    && (c.own.Some? ==> OwnCertificate(w.disk) == c.own)
  }

  /** A boot in which every helper works and the new certificate is new. */
  predicate Works(j: Journal, b: Boot) {
    && b.freshCertificate.Some?
    && b.freshCertificate.value !in b.expired
    && Id(b.freshCertificate.value) != j.previousFingerprint
    && b.reset == Complete
    && ConfirmedTailnet(b).Some?
  }

  // ------------------------------------------------------------- the steps

  lemma FileStep(c: Course, start: nat, w: World, d: Disk)
    requires Under(c, start, w)
    requires d.journal == w.disk.journal
    requires c.own.Some? ==> d.key == w.disk.key && d.certificate == w.disk.certificate
    ensures Under(c, start, w.Put(d))
  {
    assert TrustedJournal(d) == TrustedJournal(w.disk);
  }

  lemma JournalStep(c: Course, start: nat, w: World, j: Journal)
    requires Under(c, start, w) && Continues(w.disk.journal.value, j)
    ensures Under(c, start, w.PutJournal(j))
  {
    assert TrustedJournal(w.disk.(journal := Object(j))) == Some(j);
  }

  lemma RetiringFollows(c: Course, start: nat, w: World, b: Boot)
    requires Under(c, start, w) && w.disk.journal.value.reason != Initial
    requires c.own.Some? ==> c.own.value !in b.expired
    ensures var w' := RetireOldIdentity(w, w.disk.journal.value, b);
            Under(c, start, w') && w'.disk.journal == w.disk.journal
  {
    var j := w.disk.journal.value;
    if c.own.None? {
      var w1 := WipeKey(w);
      FileStep(c, start, w, w.disk.(key := Damaged));
      var m := w.Put(w.disk.(key := Damaged));
      FileStep(c, start, m, m.disk.(key := Missing));
      assert Under(c, start, w1);
      FileStep(c, start, w1, w1.disk.(certificate := Damaged));
      var n := w1.Put(w1.disk.(certificate := Damaged));
      FileStep(c, start, n, n.disk.(certificate := Missing));
    } else {
      assert RetireOldIdentity(w, j, b) == w;
    }
  }

  lemma CommitFollows(c: Course, start: nat, w: World, device: nat, prior: Prior, fingerprint: nat, b: Boot)
    requires Under(c, start, w)
    requires c.first.newDevice.Some? ==> Id(device) == c.first.newDevice.value
    requires c.own.Some? ==> c.own.value == fingerprint
    requires w.disk.key == w.disk.certificate == Holds(fingerprint) && Reads(c, b)
    ensures var j := w.disk.journal.value;
            var w' := CommitBinding(w, device, j.reason, prior, j, fingerprint, b);
            && FollowingTrace(c, start, w')
            && Landed(c, w'.disk) && w'.disk.recovery.Absent?
  {
    var j := w.disk.journal.value;
    var bound := NewBinding(device, b.reading.evidence, fingerprint, b.freshInstallation,
                            RetiredAfter(prior.retired, j.reason, device, j), j.tailnet == Some(Held));
    LoadInvertsSave(bound);
    FileStep(c, start, w, w.disk.(binding := Object(Document(bound))));
    var w1 := w.PutBinding(bound);
    assert Landed(c, w1.disk.(journal := Absent));
  }

  lemma IssuingFollows(c: Course, start: nat, w: World, device: nat, prior: Prior, b: Boot)
    requires Under(c, start, w) && w.disk.journal.value.state == Provisioning
    requires w.disk.journal.value.reason == Initial || Retired in w.disk.journal.value.steps
    requires c.first.newDevice.Some? ==> Id(device) == c.first.newDevice.value
    requires Reads(c, b) && (c.own.Some? ==> c.own.value !in b.expired)
    ensures var j := w.disk.journal.value;
            var e := IssueAndBind(w, device, j.reason, prior, j, b);
            && FollowingTrace(c, start, e.world)
            && (e.outcome.Ready? ==> Landed(c, e.world.disk) && e.world.disk.recovery.Absent? && e.outcome.device == device)
            && (Works(j, b) ==> e.outcome.Ready?)
  {
    var j := w.disk.journal.value;
    var current := PairStatus(w.disk, b.expired);
    var keep := current.valid && (j.reason == Initial || current.fingerprint != j.previousFingerprint);
    assert c.own.Some? ==> keep;
    if keep || b.freshCertificate.Some? {
      var w1 := if keep then w else GenerateCertificate(w, b.freshCertificate.value);
      if !keep {
        FileStep(c, start, w, w.disk.(key := Holds(b.freshCertificate.value)));
        var m := w.Put(w.disk.(key := Holds(b.freshCertificate.value)));
        FileStep(c, start, m, m.disk.(certificate := Holds(b.freshCertificate.value)));
      }
      var pair := PairStatus(w1.disk, b.expired);
      if pair.valid && !(j.reason != Initial && pair.fingerprint == j.previousFingerprint) {
        var j6 := j.(steps := j.steps + {CertificateIssued});
        JournalStep(c, start, w1, j6);
        CommitFollows(c, start, w1.PutJournal(j6), device, prior, pair.fingerprint.n, b);
      }
    }
  }

  lemma NamingFollows(c: Course, start: nat, w: World, prior: Prior, b: Boot)
    requires Under(c, start, w) && w.disk.journal.value.reason != Initial
    requires w.disk.journal.value.state == Provisioning && Retired in w.disk.journal.value.steps
    requires Reads(c, b) && (c.own.Some? ==> c.own.value !in b.expired)
    ensures var j := w.disk.journal.value;
            var (w1, chosen) := ChooseDevice(w, j, b);
            && chosen.Some?
            && var e := NameAndDetach(w1, chosen.value, j.reason, prior, j, b);
               && FollowingTrace(c, start, e.world)
               && (e.outcome.Ready? ==> Landed(c, e.world.disk) && e.world.disk.recovery.Absent?)
               && (e.outcome.Ready? && c.first.newDevice.Some? ==> Id(e.outcome.device) == c.first.newDevice.value)
               && (Works(j, b) ==> e.outcome.Ready?)
  {
    var j := w.disk.journal.value;
    FileStep(c, start, w, w.disk.(deviceFile := None));
    var m := w.Put(w.disk.(deviceFile := None));
    FileStep(c, start, m, m.disk.(deviceFile := Some(b.freshDevice)));
    var (w1, chosen) := ChooseDevice(w, j, b);
    assert Under(c, start, w1);
    var j4 := j.(newDevice := Some(Id(chosen.value)));
    JournalStep(c, start, w1, j4);
    var w7 := w1.PutJournal(j4);
    FileStep(c, start, w7, w7.disk.(node := NodeAfter(w7.disk.node, b.tailnet)));
    var w8 := w7.Put(w7.disk.(node := NodeAfter(w7.disk.node, b.tailnet)));
    var status := ConfirmedTailnet(b);
    if status.Some? {
      var j5 := j4.(steps := j4.steps + {TailnetCleared}, tailnet := status);
      JournalStep(c, start, w8, j5);
      IssuingFollows(c, start, w8.PutJournal(j5), chosen.value, prior, b);
    }
  }

  lemma ReplacingFollows(c: Course, start: nat, w: World, prior: Prior, b: Boot)
    requires Under(c, start, w) && w.disk.journal.value.reason != Initial && w.disk.journal.value.state == Provisioning
    requires Reads(c, b) && (c.own.Some? ==> c.own.value !in b.expired)
    ensures var j := w.disk.journal.value;
            var e := ReplaceIdentity(w, j.reason, prior, j, b);
            && FollowingTrace(c, start, e.world)
            && (e.outcome.Ready? ==> Landed(c, e.world.disk) && e.world.disk.recovery.Absent?)
            && (e.outcome.Ready? && c.first.newDevice.Some? ==> Id(e.outcome.device) == c.first.newDevice.value)
            && (Works(j, b) ==> e.outcome.Ready?)
  {
    var j := w.disk.journal.value;
    RetiringFollows(c, start, w, b);
    var w2 := RetireOldIdentity(w, j, b);
    var j2 := j.(steps := j.steps + {Retired});
    JournalStep(c, start, w2, j2);
    var w3 := w2.PutJournal(j2);
    FileStep(c, start, w3, w3.disk.(swarm := SwarmAfterReset(w3.disk.swarm, b)));
    var w4 := w3.Put(w3.disk.(swarm := SwarmAfterReset(w3.disk.swarm, b)));
    if b.reset != Raises {
      var j3 := j2.(steps := j2.steps + {SwarmReset});
      JournalStep(c, start, w4, j3);
      if b.reset == Complete {
        NamingFollows(c, start, w4.PutJournal(j3), prior, b);
      }
    }
  }

  // ------------------------------------------------------------- the runs

  /** The journal on this disk is of a run made for the hardware this boot sees. */
  ghost predicate InFlight(d: Disk, r: Reading) {
    && TrustedJournal(d).Some?
    && CompareHardware(TrustedJournal(d).value.hardware, r) == Same
  }

  lemma ResumingFollows(c: Course, d: Disk, b: Boot)
    requires InFlight(d, b.reading) && TrustedJournal(d) == Some(c.first) && Reads(c, b)
    requires c.own.Some? ==> c.own == OwnCertificate(d) && c.own.value !in b.expired
    ensures var j := c.first;
            var e := BootExec(d, b);
            && FollowingTrace(c, 0, e.world)
            && (e.outcome.Ready? ==> Landed(c, e.world.disk) && e.world.disk.recovery.Absent?)
            && (e.outcome.Ready? && j.newDevice.Some? ==> Id(e.outcome.device) == j.newDevice.value)
            && (Works(j, b) ==> e.outcome.Ready?)
  {
    var w := World(d, []);
    var j := c.first;
    var j1 := j.(state := Provisioning);
    JournalStep(c, 0, w, j1);
    var w1 := w.PutJournal(j1);
    var prior := PriorOf(LoadBinding(d.binding));
    if j.reason == Initial {
      IssuingFollows(c, 0, w1, if j.newDevice.Some? then j.newDevice.value.n else b.settingsDevice, prior, b);
    } else {
      ReplacingFollows(c, 0, w1, prior, b);
    }
  }

  /** The course of a run that starts on this disk. */
  function NewCourse(d: Disk, reason: Reason, prior: Prior, b: Boot): Course {
    Course(NewJournal(d, b.settingsDevice, reason, prior, b), None, if b.reading.Usable() then Some(b.reading.evidence) else None)
  }

  /** A fresh run writes valid journals that record the reading it was started with. */
  lemma StartingFollows(d: Disk, reason: Reason, prior: Prior, b: Boot)
    requires reason != OtherReason
    requires prior.fingerprint !in {NotText, Garbled} && prior.device != NotText && prior.installation != NotText
    ensures var c := NewCourse(d, reason, prior, b);
            && ValidJournal(c.first) && c.first.hardware == Some(b.reading.evidence)
            && FollowingTrace(c, 0, Provision(World(d, []), b.settingsDevice, reason, prior, None, b).world)
  {
    var w := World(d, []);
    var c := NewCourse(d, reason, prior, b);
    var w0 := w.PutJournal(c.first);
    assert TrustedJournal(w0.disk) == Some(c.first);
    assert Under(c, 0, w0);
    var j1 := c.first.(state := Provisioning);
    JournalStep(c, 0, w0, j1);
    var w1 := w0.PutJournal(j1);
    if reason == Initial {
      IssuingFollows(c, 0, w1, b.settingsDevice, prior, b);
    } else {
      ReplacingFollows(c, 0, w1, prior, b);
    }
  }

  // ---------------------------------------- every journal that is ever written

  /** The journal file is as it was, gone, or a valid one for this boot's hardware or of the interrupted run. */
  ghost predicate TrustworthyJournal(before: Disk, b: Boot, d: Disk) {
    || d.journal == before.journal
    || d.journal.Absent?
    || (&& TrustedJournal(d).Some?
        && var j := TrustedJournal(d).value;
           || j.hardware == Some(b.reading.evidence)
           || (TrustedJournal(before).Some? && Continues(TrustedJournal(before).value, j)))
  }

  ghost predicate TrustworthyTrace(before: Disk, b: Boot, w: World) {
    && (forall i | 0 <= i < |w.trace| :: TrustworthyJournal(before, b, w.trace[i]))
    && TrustworthyJournal(before, b, w.disk)
  }

  ghost predicate SameJournal(before: Disk, w: World) {
    && (forall i | 0 <= i < |w.trace| :: w.trace[i].journal == before.journal)
    && w.disk.journal == before.journal
  }

  lemma VerifyingKeepsTheJournal(before: Disk, w: World, binding: Binding, b: Boot)
    requires SameJournal(before, w)
    ensures SameJournal(before, Verified(w, binding, b).world)
  {
    var w1 := if PairStatus(w.disk, b.expired).valid || b.freshCertificate.None? then w
              else GenerateCertificate(w, b.freshCertificate.value);
    assert SameJournal(before, w1);
    DeviceKeepsTheJournal(before, w1, binding, false, b);
    if b.freshCertificate.Some? {
      DeviceKeepsTheJournal(before, w1, binding.(fingerprint := b.freshCertificate.value), true, b);
    }
  }

  lemma DeviceKeepsTheJournal(before: Disk, w: World, binding: Binding, changed: bool, b: Boot)
    requires SameJournal(before, w)
    ensures SameJournal(before, VerifiedDevice(w, binding, changed, b).world)
  {
    var w1 := if b.deviceWritable then w.Put(w.disk.(deviceFile := Some(binding.device))) else w;
    TailnetKeepsTheJournal(before, w, binding, b.settingsDevice, changed, b);
    TailnetKeepsTheJournal(before, w, binding.(device := b.settingsDevice), b.settingsDevice, true, b);
    TailnetKeepsTheJournal(before, w1, binding, binding.device, true, b);
  }

  lemma TailnetKeepsTheJournal(before: Disk, w: World, binding: Binding, device: nat, changed: bool, b: Boot)
    requires SameJournal(before, w)
    ensures SameJournal(before, VerifiedTailnet(w, binding, device, changed, b).world)
  {
  }

  lemma FollowingIsTrustworthy(c: Course, before: Disk, b: Boot, e: Exec)
    requires FollowingTrace(c, 0, e.world)
    requires c.first.hardware == Some(b.reading.evidence) || TrustedJournal(before) == Some(c.first)
    ensures TrustworthyTrace(before, b, e.world)
  {
    forall i | 0 <= i < |e.world.trace|
      ensures TrustworthyJournal(before, b, e.world.trace[i])
    {
      assert Follows(c, e.world.trace[i]);
    }
  }

  lemma AStartIsTrustworthy(d: Disk, reason: Reason, prior: Prior, b: Boot)
    requires reason != OtherReason
    requires prior.fingerprint !in {NotText, Garbled} && prior.device != NotText && prior.installation != NotText
    ensures TrustworthyTrace(d, b, Provision(World(d, []), b.settingsDevice, reason, prior, None, b).world)
  {
    StartingFollows(d, reason, prior, b);
    FollowingIsTrustworthy(NewCourse(d, reason, prior, b), d, b,
                           Provision(World(d, []), b.settingsDevice, reason, prior, None, b));
  }

  lemma AResumptionIsTrustworthy(d: Disk, b: Boot, administrator: bool)
    requires TrustedJournal(d).Some?
    ensures TrustworthyTrace(d, b, ResumeJournal(World(d, []), TrustedJournal(d).value, LoadBinding(d.binding), b, administrator).world)
  {
    var j := TrustedJournal(d).value;
    if CompareHardware(j.hardware, b.reading) == Same {
      var c := Course(j, None, None);
      ResumingFollows(c, d, b);
      FollowingIsTrustworthy(c, d, b, BootExec(d, b));
    } else {
      AStartIsTrustworthy(d, Clone, PriorForRestart(d, j, LoadBinding(d.binding), b), b);
    }
  }

  lemma AnUnchangedJournalIsTrustworthy(d: Disk, b: Boot, w: World)
    requires SameJournal(d, w)
    ensures TrustworthyTrace(d, b, w)
  {
  }

  lemma BoundBootIsTrustworthy(d: Disk, b: Boot, binding: Binding)
    requires d.journal.Absent? && LoadBinding(d.binding) == Bound(binding)
    ensures TrustworthyTrace(d, b, BootExec(d, b).world)
  {
    var w := World(d, []);
    var verdict := CompareHardware(binding.hardware, b.reading);
    var bound := binding.(hardware := Some(b.reading.evidence));
    if binding.hardware.None? || binding.hardware.value.components == map[] {
      if verdict == Baseline {
        VerifyingKeepsTheJournal(d, w.PutBinding(bound), bound, b);
        AnUnchangedJournalIsTrustworthy(d, b, Verified(w.PutBinding(bound), bound, b).world);
      } else {
        VerifyingKeepsTheJournal(d, w, binding, b);
        AnUnchangedJournalIsTrustworthy(d, b, Verified(w, binding, b).world);
      }
    } else if verdict == Same {
      VerifyingKeepsTheJournal(d, ReleaseAfterRecovery(w), binding, b);
      AnUnchangedJournalIsTrustworthy(d, b, Verified(ReleaseAfterRecovery(w), binding, b).world);
    } else if verdict == Different {
      if b.reading.Usable() && Authorized(d, b.now) {
        RebindingKeepsTheJournal(d, w, binding, b);
        AnUnchangedJournalIsTrustworthy(d, b, RebindAuthorized(w, binding, b).world);
      } else {
        AStartIsTrustworthy(d, Clone, PriorOf(LoadBinding(d.binding)), b);
      }
    } else {
      var e := EnterRecovery(w, if verdict == Insufficient then InsufficientEvidence else ContradictoryEvidence, b);
      AnUnchangedJournalIsTrustworthy(d, b, e.world);
    }
  }

  lemma RebindingKeepsTheJournal(before: Disk, w: World, binding: Binding, b: Boot)
    requires SameJournal(before, w)
    ensures SameJournal(before, RebindAuthorized(w, binding, b).world)
  {
    var bound := binding.(hardware := Some(b.reading.evidence));
    var w1 := w.PutBinding(bound);
    VerifyingKeepsTheJournal(before, ReleaseAfterRecovery(w1.Put(w1.disk.(authorization := None))), bound, b);
  }

  lemma UnreadableJournalBootIsTrustworthy(d: Disk, b: Boot, binding: Binding)
    requires !d.journal.Absent? && TrustedJournal(d).None? && LoadBinding(d.binding) == Bound(binding)
    ensures TrustworthyTrace(d, b, BootExec(d, b).world)
  {
    if CompareHardware(binding.hardware, b.reading) == Different {
      AStartIsTrustworthy(d, Clone, PriorOf(LoadBinding(d.binding)), b);
    } else {
      VerifyingKeepsTheJournal(d, World(d, []), binding, b);
      AnUnchangedJournalIsTrustworthy(d, b, Verified(World(d, []), binding, b).world);
    }
  }

  lemma UnboundBootIsTrustworthy(d: Disk, b: Boot)
    requires TrustedJournal(d).None? && !LoadBinding(d.binding).Bound?
    ensures TrustworthyTrace(d, b, BootExec(d, b).world)
  {
    if d.journal.Absent? && LoadBinding(d.binding).NoBinding? && !PairStatus(d, b.expired).present {
      AStartIsTrustworthy(d, Initial, NOTHING_PRIOR, b);
    }
  }

  /** Whatever the disk and whatever happens, no boot writes a journal that a later boot would not trust. */
  lemma EveryWrittenJournalIsValid(d: Disk, b: Boot)
    ensures TrustworthyTrace(d, b, BootExec(d, b).world)
  {
    if TrustedJournal(d).Some? {
      AResumptionIsTrustworthy(d, b, false);
    } else if LoadBinding(d.binding).Bound? {
      if d.journal.Absent? {
        BoundBootIsTrustworthy(d, b, LoadBinding(d.binding).binding);
      } else {
        UnreadableJournalBootIsTrustworthy(d, b, LoadBinding(d.binding).binding);
      }
    } else {
      UnboundBootIsTrustworthy(d, b);
    }
  }

  /** Nor does the administrator's decision for a new identity. */
  lemma EveryJournalOfADecisionIsValid(d: Disk, b: Boot)
    ensures TrustworthyTrace(d, b, ResolveNew(World(d, []), b).world)
  {
    if TrustedJournal(d).Some? {
      AResumptionIsTrustworthy(d, b, true);
    } else {
      AStartIsTrustworthy(d, OperatorNewIdentity, PriorOf(LoadBinding(d.binding)), b);
    }
  }

  // ------------------------------------------- boots after the binding is saved

  /** This boot recognises the hardware, and the run's certificate has not expired. */
  ghost predicate RetryOf(d: Disk, b: Boot) {
    match TrustedJournal(d)
    case Some(j) => CompareHardware(j.hardware, b.reading) == Same && Undisturbed(d, b)
    case None =>
      && LoadBinding(d.binding).Bound?
      && CompareHardware(LoadBinding(d.binding).binding.hardware, b.reading) == Same
      && Undisturbed(d, b)
  }

  /** Neither has the run's certificate expired, nor does the environment pin another id that was never retired. */
  ghost predicate Undisturbed(d: Disk, b: Boot) {
    match TrustedJournal(d)
    case Some(_) => OwnCertificate(d).Some? ==> OwnCertificate(d).value !in b.expired
    case None =>
      LoadBinding(d.binding).Bound? ==>
        var bound := LoadBinding(d.binding).binding;
        && bound.fingerprint !in b.expired
        && (b.pinned ==> b.settingsDevice == bound.device || Id(b.settingsDevice) in bound.retired)
  }

  /** A boot in which every helper the run still needs works. */
  ghost predicate Benign(d: Disk, b: Boot) {
    match TrustedJournal(d)
    case Some(j) => Works(j, b)
    case None => LoadBinding(d.binding).Bound? && LoadBinding(d.binding).binding.tailnetResetPending ==> b.tailnet != Error
  }

  ghost predicate Landing(c: Course, w: World) {
    Landed(c, w.disk) && forall i | 0 <= i < |w.trace| :: Landed(c, w.trace[i])
  }

  lemma SavingStays(c: Course, w: World, bound: Binding)
    requires Landing(c, w) && bound.installation !in {NotText, Blank}
    requires var before := LoadBinding(w.disk.binding).binding;
             bound.device == before.device && bound.fingerprint == before.fingerprint && bound.hardware == before.hardware
    ensures Landing(c, w.PutBinding(bound))
  {
    LoadInvertsSave(bound);
  }

  lemma TailnetStays(c: Course, w: World, bound: Binding, changed: bool, b: Boot)
    requires Landing(c, w) && LoadBinding(w.disk.binding) == Bound(bound) && w.disk.recovery.Absent?
    ensures var e := VerifiedTailnet(w, bound, bound.device, changed, b);
            && Landing(c, e.world)
            && (e.outcome.Ready? <==> (bound.tailnetResetPending ==> b.tailnet != Error))
            && (e.outcome.Ready? ==> e.outcome.device == bound.device && e.world.disk.recovery.Absent?)
  {
    var w1 := w.Put(w.disk.(node := NodeAfter(w.disk.node, b.tailnet)));
    assert Landing(c, w1);
    SavingStays(c, w, bound);
    SavingStays(c, w1, bound);
    SavingStays(c, w1, bound.(tailnetResetPending := false));
  }

  /**
    Once the binding is saved, every boot keeps what was committed, wherever it
    is cut short; and it ends READY unless the node that is still on hold can
    then neither be cleared nor held.
   */
  lemma ALandedRunStaysLanded(c: Course, d: Disk, b: Boot)
    requires Landed(c, d) && RetryOf(d, b)
    ensures var e := BootExec(d, b);
            && Landing(c, e.world)
            && (e.outcome.Ready? <==> Benign(d, b))
            && (e.outcome.Ready? ==> e.outcome.device == LoadBinding(d.binding).binding.device && e.world.disk.recovery.Absent?)
  {
    var w := ReleaseAfterRecovery(World(d, []));
    var bound := LoadBinding(d.binding).binding;
    SameExactly(bound.hardware, b.reading);
    assert BootExec(d, b) == Verified(w, bound, b);
    if bound.device == b.settingsDevice {
      TailnetStays(c, w, bound, false, b);
    } else {
      var w1 := if b.deviceWritable then w.Put(w.disk.(deviceFile := Some(bound.device))) else w;
      assert Landing(c, w1);
      TailnetStays(c, w1, bound, true, b);
    }
  }

  // ------------------------------------------------------------ convergence

  /** Repeated attempts, each cut short somewhere. */
  function AfterTries(d: Disk, tries: seq<(Boot, Stop)>): Disk {
    if tries == [] then d
    else AfterBoot(AfterTries(d, tries[..|tries| - 1]), tries[|tries| - 1].0, tries[|tries| - 1].1)
  }

  /** Each of them is made on the run's own hardware. */
  ghost predicate Retries(d: Disk, tries: seq<(Boot, Stop)>) {
    tries != [] ==>
      var n := |tries| - 1;
      Retries(d, tries[..n]) && RetryOf(AfterTries(d, tries[..n]), tries[n].0)
  }

  lemma ALaterPointFollows(c: Course, d: Disk, later: Course, t: Disk)
    requires Follows(c, d) && TrustedJournal(d) == Some(later.first) && later.own == OwnCertificate(d) && later.evidence == c.evidence
    requires !Landed(c, d) && Follows(later, t)
    ensures Follows(c, t)
  {
  }

  /** A run that is not over goes on in the next boot, and one that is over stays so. */
  lemma ATryFollows(c: Course, d: Disk, b: Boot)
    requires Follows(c, d) && RetryOf(d, b) && Reads(c, b)
    ensures FollowingTrace(c, 0, BootExec(d, b).world)
  {
    if Landed(c, d) {
      ALandedRunStaysLanded(c, d, b);
    } else {
      var later := Course(TrustedJournal(d).value, OwnCertificate(d), c.evidence);
      ResumingFollows(later, d, b);
      var w := BootExec(d, b).world;
      ALaterPointFollows(c, d, later, w.disk);
      forall i | 0 <= i < |w.trace|
        ensures Follows(c, w.trace[i])
      {
        ALaterPointFollows(c, d, later, w.trace[i]);
      }
    }
  }

  lemma OneTryContinues(c: Course, d: Disk, b: Boot, stop: Stop)
    requires Follows(c, d) && RetryOf(d, b) && Reads(c, b)
    ensures Follows(c, AfterBoot(d, b, stop))
  {
    ATryFollows(c, d, b);
    var e := BootExec(d, b);
    var left := match stop
      case Finished => e.world.disk
      case PowerLoss(n) => DiskAfterWrites(d, e.world.trace, n)
      case Failure(n, _) => DiskAfterWrites(d, e.world.trace, n);
    assert Follows(c, left);
    AMarkFollows(c, left);
  }

  lemma AMarkFollows(c: Course, d: Disk)
    requires Follows(c, d)
    ensures Follows(c, MarkFailed(d))
  {
    assert TrustedJournal(MarkFailed(d)) == TrustedJournal(d);
    assert OwnCertificate(MarkFailed(d)) == OwnCertificate(d);
  }

  ghost predicate AllRead(c: Course, tries: seq<(Boot, Stop)>) {
    forall i | 0 <= i < |tries| :: Reads(c, tries[i].0)
  }

  /**
    Any number of attempts later, each cut short anywhere, it is still the same
    run with the same id and certificate, or it has committed them.
   */
  lemma {:induction false} TriesContinue(c: Course, d: Disk, tries: seq<(Boot, Stop)>)
    requires Follows(c, d) && Retries(d, tries) && AllRead(c, tries)
    ensures Follows(c, AfterTries(d, tries))
  {
    if tries != [] {
      var n := |tries| - 1;
      TriesContinue(c, d, tries[..n]);
      OneTryContinues(c, AfterTries(d, tries[..n]), tries[n].0, tries[n].1);
    }
  }

  /** One boot in which the helpers work ends a run, wherever it stands. */
  lemma ABenignBootEndsTheRun(c: Course, d: Disk, b: Boot)
    requires Follows(c, d) && RetryOf(d, b) && Reads(c, b) && Benign(d, b)
    ensures var e := BootExec(d, b);
            && e.outcome.Ready?
            && Landed(c, e.world.disk)
            && e.world.disk.recovery.Absent?
            && (c.first.newDevice.Some? ==> Id(e.outcome.device) == c.first.newDevice.value)
  {
    if Landed(c, d) {
      ALandedRunStaysLanded(c, d, b);
    } else {
      var later := Course(TrustedJournal(d).value, OwnCertificate(d), c.evidence);
      ResumingFollows(later, d, b);
      ALandedPointIsLanded(c, d, later, BootExec(d, b).world.disk);
    }
  }

  lemma ALandedPointIsLanded(c: Course, d: Disk, later: Course, t: Disk)
    requires Follows(c, d) && TrustedJournal(d) == Some(later.first) && later.own == OwnCertificate(d) && later.evidence == c.evidence
    requires !Landed(c, d) && Landed(later, t)
    ensures Landed(c, t)
  {
  }

  /**
    The main result: after any number of interrupted attempts, some of which may
    even have committed, one boot in which the helpers work ends READY, without
    journal or recovery marker, under the id and the certificate the run had
    already made.
   */
  lemma InterruptedProvisioningConverges(d: Disk, tries: seq<(Boot, Stop)>, last: Boot)
    requires TrustedJournal(d).Some?
    requires Retries(d, tries) && RetryOf(AfterTries(d, tries), last)
    requires Benign(AfterTries(d, tries), last)
    ensures var e := BootExec(AfterTries(d, tries), last);
            var c := Course(TrustedJournal(d).value, OwnCertificate(d), None);
            && e.outcome.Ready?
            && Landed(c, e.world.disk)
            && e.world.disk.recovery.Absent?
            && (c.first.newDevice.Some? ==> Id(e.outcome.device) == c.first.newDevice.value)
  {
    var c := Course(TrustedJournal(d).value, OwnCertificate(d), None);
    TriesContinue(c, d, tries);
    ABenignBootEndsTheRun(c, AfterTries(d, tries), last);
  }

  // ------------------------------------------- from the start, on one reading

  lemma TheSameReadingIsRecognised(c: Course, d: Disk, b: Boot)
    requires Follows(c, d) && c.evidence.Some? && c.first.hardware == c.evidence && Reads(c, b)
    requires Undisturbed(d, b)
    ensures RetryOf(d, b)
  {
    RecognisesItselfIffUsable(b.reading);
    if Landed(c, d) {
      assert TrustedJournal(d).None?;
    }
  }

  /** Attempts with this one reading, none of them disturbed. */
  ghost predicate SameReading(c: Course, d: Disk, tries: seq<(Boot, Stop)>) {
    tries != [] ==>
      var n := |tries| - 1;
      && SameReading(c, d, tries[..n])
      && Reads(c, tries[n].0) && Undisturbed(AfterTries(d, tries[..n]), tries[n].0)
  }

  lemma {:induction false} TriesOnOneReadingContinue(c: Course, d: Disk, tries: seq<(Boot, Stop)>)
    requires Follows(c, d) && c.evidence.Some? && c.first.hardware == c.evidence
    requires SameReading(c, d, tries)
    ensures Follows(c, AfterTries(d, tries))
  {
    if tries != [] {
      var n := |tries| - 1;
      var now := AfterTries(d, tries[..n]);
      TriesOnOneReadingContinue(c, d, tries[..n]);
      TheSameReadingIsRecognised(c, now, tries[n].0);
      OneTryContinues(c, now, tries[n].0, tries[n].1);
    }
  }

  /** What had been made at this point is what the run ends with. */
  ghost predicate Preserved(t: Disk, after: Disk) {
    match TrustedJournal(t)
    case Some(j) => Landed(Course(j, OwnCertificate(t), None), after)
    case None =>
      && after.journal.Absent? && LoadBinding(t.binding).Bound? && LoadBinding(after.binding).Bound?
      && var before, now := LoadBinding(t.binding).binding, LoadBinding(after.binding).binding;
         && now.device == before.device && now.fingerprint == before.fingerprint
         && after.key == t.key && after.certificate == t.certificate
  }

  /** The course of a run seen from one of its crash points. */
  function CourseAt(c: Course, t: Disk): Course {
    match TrustedJournal(t)
    case Some(j) => c.(first := j, own := OwnCertificate(t))
    case None =>
      match LoadBinding(t.binding)
      case Bound(b) => c.(first := c.first.(newDevice := Some(Id(b.device))), own := Some(b.fingerprint))
      case _ => c
  }

  lemma CourseAtFollows(c: Course, t: Disk)
    requires Follows(c, t) && c.evidence.Some? && c.first.hardware == c.evidence && ValidJournal(c.first)
    ensures Follows(CourseAt(c, t), t) && CourseAt(c, t).first.hardware == c.evidence
    ensures forall after | Landed(CourseAt(c, t), after) :: Preserved(t, after)
  {
  }

  /**
    From every crash point of a fresh run, and after any further attempts with
    the same reading, each cut short anywhere, one boot with that reading in
    which the helpers work ends READY and keeps what had been made by then.
   */
  lemma EveryCrashPointConverges(d: Disk, reason: Reason, prior: Prior, b: Boot, i: nat, tries: seq<(Boot, Stop)>, last: Boot)
    requires reason != OtherReason && b.reading.Usable()
    requires prior.fingerprint !in {NotText, Garbled} && prior.device != NotText && prior.installation != NotText
    requires i < |Provision(World(d, []), b.settingsDevice, reason, prior, None, b).world.trace|
    requires var t := Provision(World(d, []), b.settingsDevice, reason, prior, None, b).world.trace[i];
             && SameReading(NewCourse(d, reason, prior, b), t, tries + [(last, Finished)])
             && Benign(AfterTries(t, tries), last)
    ensures var t := Provision(World(d, []), b.settingsDevice, reason, prior, None, b).world.trace[i];
            var e := BootExec(AfterTries(t, tries), last);
            && e.outcome.Ready?
            && e.world.disk.journal.Absent? && e.world.disk.recovery.Absent?
            && Preserved(t, e.world.disk)
  {
    var c := NewCourse(d, reason, prior, b);
    var t := Provision(World(d, []), b.settingsDevice, reason, prior, None, b).world.trace[i];
    StartingFollows(d, reason, prior, b);
    assert Follows(c, t);
    ACrashPointConverges(c, t, tries, last);
  }

  lemma ACrashPointConverges(c: Course, t: Disk, tries: seq<(Boot, Stop)>, last: Boot)
    requires Follows(c, t) && c.evidence.Some? && c.first.hardware == c.evidence && ValidJournal(c.first)
    requires SameReading(c, t, tries + [(last, Finished)])
    requires Benign(AfterTries(t, tries), last)
    ensures var e := BootExec(AfterTries(t, tries), last);
            && e.outcome.Ready?
            && e.world.disk.journal.Absent? && e.world.disk.recovery.Absent?
            && Preserved(t, e.world.disk)
  {
    var all := tries + [(last, Finished)];
    assert all[..|all| - 1] == tries && all[|all| - 1].0 == last;
    var now := AfterTries(t, tries);
    var here := CourseAt(c, t);
    CourseAtFollows(c, t);
    SameReadingFor(c, here, t, tries);
    TriesOnOneReadingContinue(here, t, tries);
    TheSameReadingIsRecognised(here, now, last);
    ABenignBootEndsTheRun(here, now, last);
  }

  lemma {:induction false} SameReadingFor(c: Course, here: Course, d: Disk, tries: seq<(Boot, Stop)>)
    requires here.evidence == c.evidence && SameReading(c, d, tries)
    ensures SameReading(here, d, tries)
  {
    if tries != [] {
      SameReadingFor(c, here, d, tries[..|tries| - 1]);
    }
  }

  /** A run started with usable evidence is recognised by every later boot with that reading. */
  lemma AStartedRunIsInFlight(d: Disk, reason: Reason, prior: Prior, b: Boot, i: nat)
    requires reason != OtherReason
    requires prior.fingerprint !in {NotText, Garbled} && prior.device != NotText && prior.installation != NotText
    requires i < |Provision(World(d, []), b.settingsDevice, reason, prior, None, b).world.trace|
    ensures var t := Provision(World(d, []), b.settingsDevice, reason, prior, None, b).world.trace[i];
            t.journal.Absent? || (TrustedJournal(t).Some? && (InFlight(t, b.reading) <==> b.reading.Usable()))
  {
    StartingFollows(d, reason, prior, b);
    assert Follows(NewCourse(d, reason, prior, b), Provision(World(d, []), b.settingsDevice, reason, prior, None, b).world.trace[i]);
    RecognisesItselfIffUsable(b.reading);
  }
  /** How a later boot with the reading of the run takes it up: it resumes exactly a run started on a usable reading. */
  lemma AStartedRunIsTakenUpAgain(d: Disk, reason: Reason, prior: Prior, b: Boot, i: nat, again: Boot)
    requires reason != OtherReason
    requires prior.fingerprint !in {NotText, Garbled} && prior.device != NotText && prior.installation != NotText
    requires i < |Provision(World(d, []), b.settingsDevice, reason, prior, None, b).world.trace|
    requires again.reading == b.reading
    requires !Provision(World(d, []), b.settingsDevice, reason, prior, None, b).world.trace[i].journal.Absent?
    ensures var t := Provision(World(d, []), b.settingsDevice, reason, prior, None, b).world.trace[i];
            TrustedJournal(t).Some? && TakenUp(t, TrustedJournal(t).value, again)
  {
    StartingFollows(d, reason, prior, b);
    var t := Provision(World(d, []), b.settingsDevice, reason, prior, None, b).world.trace[i];
    assert Follows(NewCourse(d, reason, prior, b), t);
    TakingUp(t, TrustedJournal(t).value, again);
  }

  /** Resumed when the reading is usable; else held, or started over as a clone if there was no evidence at all. */
  ghost predicate TakenUp(t: Disk, j: Journal, again: Boot) {
    var w, loaded := World(t, []), LoadBinding(t.binding);
    if again.reading.Usable() then
      BootExec(t, again) == Provision(w, again.settingsDevice, j.reason, PriorOf(loaded), Some(j), again)
    else if again.reading.evidence.components != map[] then
      BootExec(t, again) == EnterRecovery(w, JournalHardwareUnverified, again)
    else
      BootExec(t, again) == Provision(w, again.settingsDevice, Clone, PriorForRestart(t, j, loaded, again), None, again)
  }

  lemma TakingUp(t: Disk, j: Journal, again: Boot)
    requires TrustedJournal(t) == Some(j) && j.hardware == Some(again.reading.evidence)
    ensures TakenUp(t, j, again)
  {
    RecognisesItselfIffUsable(again.reading);
  }
}

/**
  What a provisioning run does on its way (app/common/identity_provisioning.py):
  when it succeeds, how it destroys the old key, what its journal says, and what
  is remembered of the identity it replaces.
 */
module ProvisioningRuns {
  import opened Options
  import opened HardwareIdentity
  import opened IdentityModel
  import opened ReadyBoots
  import Decisions = BootDecisions

  // ------------------------------------------------------- when a run succeeds

  /** The certificate a replacement can end with is new, not expired and not the inherited one. */
  ghost predicate GoodCertificate(b: Boot, inherited: Text) {
    b.freshCertificate.Some? && b.freshCertificate.value !in b.expired && Id(b.freshCertificate.value) != inherited
  }

  lemma IssuingSucceedsExactly(w: World, device: nat, reason: Reason, prior: Prior, j: Journal, b: Boot)
    ensures var current := PairStatus(w.disk, b.expired);
            var kept := current.valid && (reason == Initial || current.fingerprint != j.previousFingerprint);
            IssueAndBind(w, device, reason, prior, j, b).outcome
            == if kept || GoodCertificate(b, if reason == Initial then Blank else j.previousFingerprint) then Ready(device) else Raised
  {
  }

  /** A replacement that starts afresh ends READY exactly when the swarm is cleared, the node is dealt with and a good certificate can be made. */
  lemma AFreshReplacementSucceedsExactly(d: Disk, device: nat, reason: Reason, prior: Prior, b: Boot)
    requires reason != Initial
    ensures var inherited := if prior.fingerprint == Blank then PairStatus(d, b.expired).fingerprint else prior.fingerprint;
            Provision(World(d, []), device, reason, prior, None, b).outcome
            == if b.reset == Complete && (b.tailnet != Error || b.holds) && GoodCertificate(b, inherited)
               then Ready(b.freshDevice) else Raised
  {
    var (w1, j1) := OpenJournal(World(d, []), device, reason, prior, None, b);
    var w2 := RetireOldIdentity(w1, j1, b);
    assert !PairStatus(w2.disk, b.expired).present;
    var j2 := j1.(steps := j1.steps + {Retired});
    var w3 := w2.PutJournal(j2);
    var w4 := w3.Put(w3.disk.(swarm := SwarmAfterReset(w3.disk.swarm, b)));
    var j3 := j2.(steps := j2.steps + {SwarmReset});
    var (w6, chosen) := ChooseDevice(w4.PutJournal(j3), j3, b);
    assert chosen == Some(b.freshDevice);
    NamingSucceedsExactly(w6, b.freshDevice, reason, prior, j3, b);
  }

  lemma NamingSucceedsExactly(w: World, device: nat, reason: Reason, prior: Prior, j: Journal, b: Boot)
    requires reason != Initial && !PairStatus(w.disk, b.expired).present
    ensures NameAndDetach(w, device, reason, prior, j, b).outcome
            == if (b.tailnet != Error || b.holds) && GoodCertificate(b, j.previousFingerprint) then Ready(device) else Raised
  {
    var j4 := j.(newDevice := Some(Id(device)));
    var w7 := w.PutJournal(j4);
    var w8 := w7.Put(w7.disk.(node := NodeAfter(w7.disk.node, b.tailnet)));
    var status := ConfirmedTailnet(b);
    if status.Some? {
      var j5 := j4.(steps := j4.steps + {TailnetCleared}, tailnet := status);
      IssuingSucceedsExactly(w8.PutJournal(j5), device, reason, prior, j5, b);
    }
  }

  /** A new installation keeps a valid pair it finds, and else needs a certificate; it destroys nothing. */
  lemma AnInstallationSucceedsExactly(d: Disk, device: nat, prior: Prior, b: Boot)
    ensures var e := Provision(World(d, []), device, Initial, prior, None, b);
            var valid := PairStatus(d, b.expired).valid;
            && e.outcome == (if valid || GoodCertificate(b, Blank) then Ready(device) else Raised)
            && (e.outcome.Ready? ==> e.world.disk.certificate == e.world.disk.key
                                     && e.world.disk.key == (if valid then d.key else Holds(b.freshCertificate.value)))
            && e.world.disk.swarm == d.swarm && e.world.disk.node == d.node && e.world.disk.deviceFile == d.deviceFile
  {
  }

  // ------------------------------------------------- how the old key is destroyed

  /** From one disk state to the next, a key or certificate file only goes after it was overwritten. */
  ghost predicate OverwrittenFirst(before: Disk, after: Disk) {
    && (after.key.Missing? ==> before.key.Missing? || before.key.Damaged?)
    && (after.certificate.Missing? ==> before.certificate.Missing? || before.certificate.Damaged?)
  }

  /** The disk state before the i-th write. */
  function Before(d: Disk, trace: seq<Disk>, i: nat): Disk
    requires i <= |trace|
  {
    if i == 0 then d else trace[i - 1]
  }

  ghost predicate Careful(d: Disk, w: World) {
    && w.disk == Before(d, w.trace, |w.trace|)
    && forall i | 0 <= i < |w.trace| :: OverwrittenFirst(Before(d, w.trace, i), w.trace[i])
  }

  lemma CarefulStep(d: Disk, w: World, t: Disk)
    requires Careful(d, w) && OverwrittenFirst(w.disk, t)
    ensures Careful(d, w.Put(t))
  {
    var w' := w.Put(t);
    forall i | 0 <= i < |w'.trace|
      ensures OverwrittenFirst(Before(d, w'.trace, i), w'.trace[i])
    {
      assert Before(d, w'.trace, i) == Before(d, w.trace, i);
    }
  }

  lemma RetiringIsCareful(d: Disk, w: World, j: Journal, b: Boot)
    requires Careful(d, w)
    ensures Careful(d, RetireOldIdentity(w, j, b))
  {
    var w1 := WipeKey(w);
    if !w.disk.key.Missing? {
      CarefulStep(d, w, w.disk.(key := Damaged));
      var m := w.Put(w.disk.(key := Damaged));
      CarefulStep(d, m, m.disk.(key := Missing));
    }
    if !w1.disk.certificate.Missing? {
      CarefulStep(d, w1, w1.disk.(certificate := Damaged));
      var m := w1.Put(w1.disk.(certificate := Damaged));
      CarefulStep(d, m, m.disk.(certificate := Missing));
    }
  }

  lemma IssuingIsCareful(d: Disk, w: World, device: nat, reason: Reason, prior: Prior, j: Journal, b: Boot)
    requires Careful(d, w)
    ensures Careful(d, IssueAndBind(w, device, reason, prior, j, b).world)
  {
    var current := PairStatus(w.disk, b.expired);
    var keep := current.valid && (reason == Initial || current.fingerprint != j.previousFingerprint);
    if keep || b.freshCertificate.Some? {
      var w1 := if keep then w else GenerateCertificate(w, b.freshCertificate.value);
      if !keep {
        CarefulStep(d, w, w.disk.(key := Holds(b.freshCertificate.value)));
        var m := w.Put(w.disk.(key := Holds(b.freshCertificate.value)));
        CarefulStep(d, m, m.disk.(certificate := Holds(b.freshCertificate.value)));
      }
      var pair := PairStatus(w1.disk, b.expired);
      if pair.valid {
        CommittingIsCareful(d, w1, device, reason, prior, j.(steps := j.steps + {CertificateIssued}), pair.fingerprint.n, b);
      }
    }
  }

  lemma CommittingIsCareful(d: Disk, w: World, device: nat, reason: Reason, prior: Prior, j: Journal, fingerprint: nat, b: Boot)
    requires Careful(d, w)
    ensures Careful(d, CommitBinding(w.PutJournal(j), device, reason, prior, j, fingerprint, b))
  {
    CarefulStep(d, w, w.disk.(journal := Object(j)));
    var binding := NewBinding(device, b.reading.evidence, fingerprint, b.freshInstallation,
                              RetiredAfter(prior.retired, reason, device, j), j.tailnet == Some(Held));
    var w0 := w.PutJournal(j);
    CarefulStep(d, w0, w0.disk.(binding := Object(Document(binding))));
    var w1 := w0.PutBinding(binding);
    CarefulStep(d, w1, w1.disk.(journal := Absent));
    var w2 := w1.Put(w1.disk.(journal := Absent));
    CarefulStep(d, w2, w2.disk.(recovery := Absent));
  }

  lemma NamingIsCareful(d: Disk, w: World, device: nat, reason: Reason, prior: Prior, j: Journal, b: Boot)
    requires Careful(d, w)
    ensures Careful(d, NameAndDetach(w, device, reason, prior, j, b).world)
  {
    var j4 := j.(newDevice := Some(Id(device)));
    CarefulStep(d, w, w.disk.(journal := Object(j4)));
    var w7 := w.PutJournal(j4);
    CarefulStep(d, w7, w7.disk.(node := NodeAfter(w7.disk.node, b.tailnet)));
    var w8 := w7.Put(w7.disk.(node := NodeAfter(w7.disk.node, b.tailnet)));
    var status := ConfirmedTailnet(b);
    if status.Some? {
      var j5 := j4.(steps := j4.steps + {TailnetCleared}, tailnet := status);
      CarefulStep(d, w8, w8.disk.(journal := Object(j5)));
      IssuingIsCareful(d, w8.PutJournal(j5), device, reason, prior, j5, b);
    }
  }

  lemma ChoosingIsCareful(d: Disk, w: World, j: Journal, b: Boot)
    requires Careful(d, w)
    ensures Careful(d, ChooseDevice(w, j, b).0)
  {
    CarefulStep(d, w, w.disk.(deviceFile := None));
    var m := w.Put(w.disk.(deviceFile := None));
    CarefulStep(d, m, m.disk.(deviceFile := Some(b.freshDevice)));
  }

  lemma ReplacingIsCareful(d: Disk, w: World, reason: Reason, prior: Prior, j: Journal, b: Boot)
    requires Careful(d, w)
    ensures Careful(d, ReplaceIdentity(w, reason, prior, j, b).world)
  {
    RetiringIsCareful(d, w, j, b);
    var w2 := RetireOldIdentity(w, j, b);
    var j2 := j.(steps := j.steps + {Retired});
    CarefulStep(d, w2, w2.disk.(journal := Object(j2)));
    var w3 := w2.PutJournal(j2);
    CarefulStep(d, w3, w3.disk.(swarm := SwarmAfterReset(w3.disk.swarm, b)));
    var w4 := w3.Put(w3.disk.(swarm := SwarmAfterReset(w3.disk.swarm, b)));
    if b.reset != Raises {
      var j3 := j2.(steps := j2.steps + {SwarmReset});
      CarefulStep(d, w4, w4.disk.(journal := Object(j3)));
      var w5 := w4.PutJournal(j3);
      if b.reset == Complete {
        ChoosingIsCareful(d, w5, j3, b);
        var (w6, chosen) := ChooseDevice(w5, j3, b);
        if chosen.Some? {
          NamingIsCareful(d, w6, chosen.value, reason, prior, j3, b);
        }
      }
    }
  }

  /** No run, however it ends, ever removes a key that could still be read from the freed blocks of its file. */
  lemma KeysAreOverwrittenBeforeTheyGo(d: Disk, device: nat, reason: Reason, prior: Prior, resumed: Option<Journal>, b: Boot)
    ensures Careful(d, Provision(World(d, []), device, reason, prior, resumed, b).world)
  {
    var w := World(d, []);
    var (w1, j1) := OpenJournal(w, device, reason, prior, resumed, b);
    if resumed.None? {
      var j0 := NewJournal(d, device, reason, prior, b);
      CarefulStep(d, w, d.(journal := Object(j0)));
      CarefulStep(d, w.PutJournal(j0), d.(journal := Object(j1)));
    } else {
      CarefulStep(d, w, d.(journal := Object(j1)));
    }
    assert Careful(d, w1);
    if reason == Initial {
      IssuingIsCareful(d, w1, if j1.newDevice.Some? && j1.newDevice.value.Id? then j1.newDevice.value.n else device, reason, prior, j1, b);
    } else {
      ReplacingIsCareful(d, w1, reason, prior, j1, b);
    }
  }

  // -------------------------------------------------------- what the journal says

  /** The first thing a run writes says what it replaces, on what evidence, and that nothing has been done yet. */
  lemma TheFirstJournalSays(d: Disk, device: nat, reason: Reason, prior: Prior, b: Boot)
    ensures var trace := Provision(World(d, []), device, reason, prior, None, b).world.trace;
            && |trace| >= 2
            && trace[0] == d.(journal := trace[0].journal) && trace[0].journal.Object?
            && trace[1] == d.(journal := Object(trace[0].journal.value.(state := Provisioning)))
            && var j := trace[0].journal.value;
               && j.reason == reason && (j.state == CloneDetected <==> reason == Clone) && j.state != OtherState
               && j.stepsIsObject && j.startedAt == Id(b.now)
               && j.previousDevice == (if prior.device == Blank then Id(device) else prior.device)
               && j.previousInstallation == prior.installation
               && j.previousFingerprint
                  == (if prior.fingerprint == Blank then PairStatus(d, b.expired).fingerprint else prior.fingerprint)
               && j.hardware == Some(b.reading.evidence)
               && j.newDevice.None? && j.steps == {} && j.tailnet.None?
  {
    var (w1, j1) := OpenJournal(World(d, []), device, reason, prior, None, b);
    assert |w1.trace| == 2;
    if reason == Initial {
      Decisions.IssuingExtends(w1, device, reason, prior, j1, b);
    } else {
      Decisions.ReplacingExtends(w1, reason, prior, j1, b);
    }
  }

  /** A resumed run goes on with the journal it found, and says so before it does anything else. */
  lemma AResumedRunGoesOn(d: Disk, device: nat, prior: Prior, j: Journal, b: Boot)
    ensures var trace := Provision(World(d, []), device, j.reason, prior, Some(j), b).world.trace;
            |trace| >= 1 && trace[0] == d.(journal := Object(j.(state := Provisioning)))
  {
    var (w1, j1) := OpenJournal(World(d, []), device, j.reason, prior, Some(j), b);
    if j.reason == Initial {
      Decisions.IssuingExtends(w1, if j1.newDevice.Some? && j1.newDevice.value.Id? then j1.newDevice.value.n else device, j.reason, prior, j1, b);
    } else {
      Decisions.ReplacingExtends(w1, j.reason, prior, j1, b);
    }
  }

  /** Of the steps a journal lists, each has been taken on this disk. */
  ghost predicate StepsAreTaken(b: Boot, inherited: Text, d: Disk) {
    d.journal.Object? ==>
      var j := d.journal.value;
      && (Retired in j.steps ==> !(d.key.Holds? && d.key == d.certificate && Id(d.key.n) == inherited))
      && (SwarmReset in j.steps ==> d.swarm == (if b.reset == Complete then {} else d.swarm * b.swarmLeft))
      && (TailnetCleared in j.steps ==>
            j.newDevice.Some? && j.tailnet == ConfirmedTailnet(b) && j.tailnet.Some? && (b.tailnet == Reset ==> d.node.None?))
      && (CertificateIssued in j.steps ==> PairStatus(d, b.expired).valid && PairStatus(d, b.expired).fingerprint != inherited)
  }

  ghost predicate Truthful(b: Boot, inherited: Text, w: World) {
    && StepsAreTaken(b, inherited, w.disk)
    && forall i | 0 <= i < |w.trace| :: StepsAreTaken(b, inherited, w.trace[i])
  }

  lemma TruthfulStep(b: Boot, inherited: Text, w: World, d: Disk)
    requires Truthful(b, inherited, w) && StepsAreTaken(b, inherited, d)
    ensures Truthful(b, inherited, w.Put(d))
  {
  }

  /** All that a run says in its journal is true in every disk state it passes through. */
  lemma WhatTheJournalListsIsDone(d: Disk, device: nat, reason: Reason, prior: Prior, b: Boot)
    requires reason != Initial
    requires b.freshCertificate.Some? ==> Id(b.freshCertificate.value) != InheritedOf(d, prior, b)
    ensures Truthful(b, InheritedOf(d, prior, b), Provision(World(d, []), device, reason, prior, None, b).world)
  {
    var inherited := InheritedOf(d, prior, b);
    var (w1, j1) := OpenJournal(World(d, []), device, reason, prior, None, b);
    assert j1.previousFingerprint == inherited && j1.steps == {} && Truthful(b, inherited, w1);
    RetiringIsTruthful(b, inherited, w1, j1);
    ResettingIsTruthful(b, inherited, w1, RetireOldIdentity(w1, j1, b), reason, prior, j1);
  }

  lemma RetiringIsTruthful(b: Boot, inherited: Text, w: World, j: Journal)
    requires Truthful(b, inherited, w) && w.disk.journal == Object(j) && j.steps == {}
    ensures var w' := RetireOldIdentity(w, j, b);
            && Truthful(b, inherited, w') && w'.disk.journal == w.disk.journal
            && !PairStatus(w'.disk, b.expired).present
  {
  }

  lemma ResettingIsTruthful(b: Boot, inherited: Text, w1: World, w2: World, reason: Reason, prior: Prior, j1: Journal)
    requires w2 == RetireOldIdentity(w1, j1, b) && Truthful(b, inherited, w2) && reason != Initial
    requires w2.disk.journal == Object(j1) && j1.steps == {} && j1.previousFingerprint == inherited && j1.newDevice.None?
    requires !PairStatus(w2.disk, b.expired).present
    requires b.freshCertificate.Some? ==> Id(b.freshCertificate.value) != inherited
    ensures Truthful(b, inherited, ReplaceIdentity(w1, reason, prior, j1, b).world)
  {
    var j2 := j1.(steps := j1.steps + {Retired});
    TruthfulStep(b, inherited, w2, w2.disk.(journal := Object(j2)));
    var w3 := w2.PutJournal(j2);
    TruthfulStep(b, inherited, w3, w3.disk.(swarm := SwarmAfterReset(w3.disk.swarm, b)));
    var w4 := w3.Put(w3.disk.(swarm := SwarmAfterReset(w3.disk.swarm, b)));
    if b.reset != Raises {
      var j3 := j2.(steps := j2.steps + {SwarmReset});
      TruthfulStep(b, inherited, w4, w4.disk.(journal := Object(j3)));
      var w5 := w4.PutJournal(j3);
      if b.reset == Complete {
        TruthfulStep(b, inherited, w5, w5.disk.(deviceFile := None));
        var m := w5.Put(w5.disk.(deviceFile := None));
        TruthfulStep(b, inherited, m, m.disk.(deviceFile := Some(b.freshDevice)));
        var (w6, chosen) := ChooseDevice(w5, j3, b);
        NamingIsTruthful(b, inherited, w6, b.freshDevice, reason, prior, j3);
      }
    }
  }

  ghost function InheritedOf(d: Disk, prior: Prior, b: Boot): Text {
    if prior.fingerprint == Blank then PairStatus(d, b.expired).fingerprint else prior.fingerprint
  }

  lemma NamingIsTruthful(b: Boot, inherited: Text, w: World, device: nat, reason: Reason, prior: Prior, j: Journal)
    requires Truthful(b, inherited, w) && reason != Initial
    requires w.disk.journal == Object(j) && j.steps == {Retired, SwarmReset} && j.previousFingerprint == inherited
    requires b.reset == Complete && !PairStatus(w.disk, b.expired).present
    requires b.freshCertificate.Some? ==> Id(b.freshCertificate.value) != inherited
    ensures Truthful(b, inherited, NameAndDetach(w, device, reason, prior, j, b).world)
  {
    var j4 := j.(newDevice := Some(Id(device)));
    TruthfulStep(b, inherited, w, w.disk.(journal := Object(j4)));
    var w7 := w.PutJournal(j4);
    TruthfulStep(b, inherited, w7, w7.disk.(node := NodeAfter(w7.disk.node, b.tailnet)));
    var w8 := w7.Put(w7.disk.(node := NodeAfter(w7.disk.node, b.tailnet)));
    var status := ConfirmedTailnet(b);
    if status.Some? {
      var j5 := j4.(steps := j4.steps + {TailnetCleared}, tailnet := status);
      TruthfulStep(b, inherited, w8, w8.disk.(journal := Object(j5)));
      IssuingIsTruthful(b, inherited, w8.PutJournal(j5), device, reason, prior, j5);
    }
  }

  lemma IssuingIsTruthful(b: Boot, inherited: Text, w: World, device: nat, reason: Reason, prior: Prior, j: Journal)
    requires Truthful(b, inherited, w) && reason != Initial && j.previousFingerprint == inherited
    requires w.disk.journal == Object(j) && CertificateIssued !in j.steps && !PairStatus(w.disk, b.expired).present
    requires b.freshCertificate.Some? ==> Id(b.freshCertificate.value) != inherited
    ensures Truthful(b, inherited, IssueAndBind(w, device, reason, prior, j, b).world)
  {
    if b.freshCertificate.Some? {
      var n := b.freshCertificate.value;
      TruthfulStep(b, inherited, w, w.disk.(key := Holds(n)));
      var m := w.Put(w.disk.(key := Holds(n)));
      TruthfulStep(b, inherited, m, m.disk.(certificate := Holds(n)));
      var w1 := GenerateCertificate(w, n);
      if n !in b.expired {
        var j6 := j.(steps := j.steps + {CertificateIssued});
        TruthfulStep(b, inherited, w1, w1.disk.(journal := Object(j6)));
        CommittingIsTruthful(b, inherited, w1.PutJournal(j6), device, reason, prior, j6, n);
      }
    }
  }

  lemma CommittingIsTruthful(b: Boot, inherited: Text, w: World, device: nat, reason: Reason, prior: Prior, j: Journal, n: nat)
    requires Truthful(b, inherited, w) && w.disk.journal == Object(j)
    ensures Truthful(b, inherited, CommitBinding(w, device, reason, prior, j, n, b))
  {
    var binding := NewBinding(device, b.reading.evidence, n, b.freshInstallation,
                              RetiredAfter(prior.retired, reason, device, j), j.tailnet == Some(Held));
    TruthfulStep(b, inherited, w, w.disk.(binding := Object(Document(binding))));
    var w1 := w.PutBinding(binding);
    TruthfulStep(b, inherited, w1, w1.disk.(journal := Absent));
    var w2 := w1.Put(w1.disk.(journal := Absent));
    TruthfulStep(b, inherited, w2, w2.disk.(recovery := Absent));
  }

  /** And before the binding is saved, it lists all of them. */
  lemma AllStepsAreListed(d: Disk, device: nat, reason: Reason, prior: Prior, b: Boot)
    requires reason != Initial
    ensures var e := Provision(World(d, []), device, reason, prior, None, b);
            e.outcome.Ready? ==>
              var n := |e.world.trace|;
              && n >= 4
              && e.world.trace[n - 3].journal == e.world.trace[n - 4].journal && e.world.trace[n - 4].journal.Object?
              && e.world.trace[n - 4].journal.value.steps == {Retired, SwarmReset, TailnetCleared, CertificateIssued}
              && e.world.trace[n - 3].binding == e.world.disk.binding
              && e.world.trace[n - 2].journal.Absent? && e.world.trace[n - 1] == e.world.disk
  {
    var (w1, j1) := OpenJournal(World(d, []), device, reason, prior, None, b);
    var w2 := RetireOldIdentity(w1, j1, b);
    var j2 := j1.(steps := j1.steps + {Retired});
    var w3 := w2.PutJournal(j2);
    var w4 := w3.Put(w3.disk.(swarm := SwarmAfterReset(w3.disk.swarm, b)));
    var j3 := j2.(steps := j2.steps + {SwarmReset});
    var (w6, chosen) := ChooseDevice(w4.PutJournal(j3), j3, b);
    NamingListsTheRest(w6, b.freshDevice, reason, prior, j3, b);
  }

  ghost predicate ListsAll(e: Exec, steps: set<Step>) {
    e.outcome.Ready? ==>
      var n := |e.world.trace|;
      && n >= 4
      && e.world.trace[n - 3].journal == e.world.trace[n - 4].journal && e.world.trace[n - 4].journal.Object?
      && e.world.trace[n - 4].journal.value.steps == steps
      && e.world.trace[n - 3].binding == e.world.disk.binding
      && e.world.trace[n - 2].journal.Absent? && e.world.trace[n - 1] == e.world.disk
  }

  lemma NamingListsTheRest(w: World, device: nat, reason: Reason, prior: Prior, j: Journal, b: Boot)
    ensures ListsAll(NameAndDetach(w, device, reason, prior, j, b), j.steps + {TailnetCleared, CertificateIssued})
  {
    var j4 := j.(newDevice := Some(Id(device)));
    var w7 := w.PutJournal(j4);
    var w8 := w7.Put(w7.disk.(node := NodeAfter(w7.disk.node, b.tailnet)));
    var status := ConfirmedTailnet(b);
    if status.Some? {
      var j5 := j4.(steps := j4.steps + {TailnetCleared}, tailnet := status);
      IssuingListsItself(w8.PutJournal(j5), device, reason, prior, j5, b);
      assert j5.steps + {CertificateIssued} == j.steps + {TailnetCleared, CertificateIssued};
    }
  }

  lemma IssuingListsItself(w: World, device: nat, reason: Reason, prior: Prior, j: Journal, b: Boot)
    ensures ListsAll(IssueAndBind(w, device, reason, prior, j, b), j.steps + {CertificateIssued})
  {
  }

  // ---------------------------------------------------- what is left behind it

  /** The old id file goes, and the new id is stored in its place as far as it can be. */
  lemma TheIdFileIsReplaced(d: Disk, device: nat, reason: Reason, prior: Prior, b: Boot)
    requires reason != Initial
    ensures var e := Provision(World(d, []), device, reason, prior, None, b);
            e.outcome.Ready? ==> e.world.disk.deviceFile == if b.deviceWritable then Some(b.freshDevice) else None
  {
    var (w1, j1) := OpenJournal(World(d, []), device, reason, prior, None, b);
    var j2 := j1.(steps := j1.steps + {Retired});
    var w3 := RetireOldIdentity(w1, j1, b).PutJournal(j2);
    var w4 := w3.Put(w3.disk.(swarm := SwarmAfterReset(w3.disk.swarm, b)));
    var j3 := j2.(steps := j2.steps + {SwarmReset});
    var (w6, chosen) := ChooseDevice(w4.PutJournal(j3), j3, b);
    assert w6.disk.deviceFile == if b.deviceWritable then Some(b.freshDevice) else None;
    NamingLeavesTheFile(w6, b.freshDevice, reason, prior, j3, b);
  }

  lemma NamingLeavesTheFile(w: World, device: nat, reason: Reason, prior: Prior, j: Journal, b: Boot)
    ensures NameAndDetach(w, device, reason, prior, j, b).world.disk.deviceFile == w.disk.deviceFile
  {
  }

  /** The ids that must not come back: the last twenty, and always the one that was just replaced. */
  lemma TheOldIdIsRetired(retired: seq<Text>, reason: Reason, device: nat, j: Journal)
    ensures var after := RetiredAfter(retired, reason, device, j);
            && |after| <= HISTORY_LIMIT
            && (forall t | t in after :: t in retired || (t == j.previousDevice && reason != Initial && t.Id? && t != Id(device))
                                         || (t == j.previousDevice && reason != Initial && t.Garbled?))
            && (reason != Initial && j.previousDevice.Id? && j.previousDevice != Id(device) && j.previousDevice !in retired ==>
                  j.previousDevice in after)
            && (|retired| < HISTORY_LIMIT ==> forall t | t in retired :: t in after)
  {
    var inherited := j.previousDevice;
    if reason != Initial && inherited !in {NotText, Blank, Id(device)} && inherited !in retired {
      var longer := retired + [inherited];
      assert longer[|longer| - 1] == inherited;
      assert LastOf(longer)[|LastOf(longer)| - 1] == inherited;
    }
  }

  /** These ids, and behind them these, as far as they say something and are not there already. */
  ghost predicate Remembers(base: seq<Text>, first: Text, second: Text, retired: seq<Text>) {
    && |base| <= |retired| <= |base| + 2 && retired[..|base|] == base
    && (forall i | |base| <= i < |retired| :: retired[i] in {first, second} && retired[i] !in {NotText, Blank})
    && (first !in {NotText, Blank} ==> first in retired)
    && (second !in {NotText, Blank} ==> second in retired)
  }

  /** An id is put behind the retired ones, unless it says nothing or is there already. */
  lemma OneMoreIsRetired(retired: seq<Text>, t: Text)
    ensures var after := WithRetired(retired, t);
            if t in {NotText, Blank} || t in retired then after == retired else after == retired + [t]
  {
  }

  lemma TwoMoreAreRetired(base: seq<Text>, first: Text, second: Text)
    ensures Remembers(base, first, second, WithRetired(WithRetired(base, first), second))
  {
    var once := WithRetired(base, first);
    var twice := WithRetired(once, second);
    OneMoreIsRetired(base, first);
    OneMoreIsRetired(once, second);
    assert first !in {NotText, Blank} ==> first in once;
    assert once[..|base|] == base && twice[..|once|] == once;
    assert twice[..|base|] == twice[..|once|][..|base|];
    assert forall t | t in once :: t in twice;
  }

  /**
    A run that is started over on other hardware remembers the half-made one:
    its certificate is the one to be rid of, and its ids, old and new, are retired.
   */
  lemma ARestartRemembersTheHalfMadeRun(d: Disk, j: Journal, loaded: Loaded, b: Boot)
    ensures var prior := PriorForRestart(d, j, loaded, b);
            && prior.fingerprint == (if d.key.Missing? || !d.certificate.Holds? then j.previousFingerprint else Id(d.certificate.n))
            && prior.device == Id(b.settingsDevice)
            && prior.installation == PriorOf(loaded).installation
            && Remembers(PriorOf(loaded).retired, j.previousDevice, if j.newDevice.Some? then j.newDevice.value else Blank, prior.retired)
  {
    TwoMoreAreRetired(PriorOf(loaded).retired, j.previousDevice, if j.newDevice.Some? then j.newDevice.value else Blank);
  }
}

/**
  The identity lifecycle as it runs: files changed one durable write at a time
  (app/common/identity_provisioning.py). Every method is proved to leave the
  disk, and every disk state on the way there, as IdentityModel says.
 */
module IdentityStore {
  import opened Options
  import opened HardwareIdentity
  import opened IdentityModel
  import Safety = CloneSafety
  import Runs = Resumption
  import Home = SameMachine

  class Store {
    var key: PairFile
    var certificate: PairFile
    var deviceFile: Option<nat>
    var binding: Json<BindingDocument>
    var journal: Json<Journal>
    var recovery: Json<Marker>
    var authorization: Option<nat>
    var swarm: set<nat>
    var node: Option<nat>
    var networking: bool              // the gate every peer worker asks
    ghost var trace: seq<Disk>

    function OnDisk(): Disk
      reads this
    {
      Disk(key, certificate, deviceFile, binding, journal, recovery, authorization, swarm, node)
    }

    ghost function Now(): World
      reads this
    {
      World(OnDisk(), trace)
    }

    constructor (d: Disk)
      ensures Now() == World(d, []) && !networking
    {
      key, certificate, deviceFile, binding, journal := d.key, d.certificate, d.deviceFile, d.binding, d.journal;
      recovery, authorization, swarm, node := d.recovery, d.authorization, d.swarm, d.node;
      networking, trace := false, [];
    }

    /** The write just made has reached the disk. */
    ghost method Synced()
      modifies this`trace
      ensures trace == old(trace) + [OnDisk()]
    {
      trace := trace + [OnDisk()];
    }

    method RecordJournal(j: Journal)
      modifies this`journal, this`trace
      ensures Now() == old(Now()).PutJournal(j)
    {
      journal := Object(j);
      Synced();
    }

    method SaveBinding(b: Binding)
      modifies this`binding, this`trace
      ensures Now() == old(Now()).PutBinding(b)
    {
      binding := Object(Document(b));
      Synced();
    }

    method WipePair()
      modifies this`key, this`certificate, this`trace
      ensures Now() == WipeCertificate(WipeKey(old(Now())))
    {
      if key != Missing {
        key := Damaged;
        Synced();
        key := Missing;
        Synced();
      }
      if certificate != Missing {
        certificate := Damaged;
        Synced();
        certificate := Missing;
        Synced();
      }
    }

    method RetireOldIdentity(j: Journal, b: Boot)
      modifies this`key, this`certificate, this`trace
      ensures Now() == IdentityModel.RetireOldIdentity(old(Now()), j, b)
    {
      var current := PairStatus(OnDisk(), b.expired);
      var resuming := Retired in j.steps;
      if current.present && (!resuming || !current.valid || current.fingerprint == j.previousFingerprint) {
        WipePair();
      }
    }

    method ChooseDevice(j: Journal, b: Boot) returns (chosen: Option<nat>)
      modifies this`deviceFile, this`trace
      ensures (Now(), chosen) == IdentityModel.ChooseDevice(old(Now()), j, b)
    {
      if j.newDevice.Some? {
        return if j.newDevice.value.Id? then Some(j.newDevice.value.n) else None;
      }
      deviceFile := None;
      Synced();
      if b.deviceWritable {
        deviceFile := Some(b.freshDevice);
        Synced();
      }
      chosen := Some(b.freshDevice);
    }

    method GenerateCertificate(n: nat)
      modifies this`key, this`certificate, this`trace
      ensures Now() == IdentityModel.GenerateCertificate(old(Now()), n)
    {
      key := Holds(n);
      Synced();
      certificate := Holds(n);
      Synced();
    }

    /** Creates, or goes on creating, the identity. */
    method Provision(device: nat, reason: Reason, prior: Prior, resumed: Option<Journal>, b: Boot) returns (outcome: Outcome)
      modifies this
      ensures Exec(Now(), outcome) == IdentityModel.Provision(old(Now()), device, reason, prior, resumed, b)
      ensures networking == outcome.Ready?
    {
      networking := false;
      var j: Journal;
      if resumed.Some? {
        j := resumed.value;
      } else {
        j := NewJournal(OnDisk(), device, reason, prior, b);
        RecordJournal(j);
      }
      j := j.(state := Provisioning);
      RecordJournal(j);
      if reason == Initial {
        var id := if j.newDevice.Some? && j.newDevice.value.Id? then j.newDevice.value.n else device;
        outcome := IssueAndBind(id, reason, prior, j, b);
      } else {
        outcome := ReplaceIdentity(reason, prior, j, b);
      }
    }

    method ReplaceIdentity(reason: Reason, prior: Prior, j1: Journal, b: Boot) returns (outcome: Outcome)
      requires !networking
      modifies this
      ensures Exec(Now(), outcome) == IdentityModel.ReplaceIdentity(old(Now()), reason, prior, j1, b)
      ensures networking == outcome.Ready?
    {
      RetireOldIdentity(j1, b);
      var j := j1.(steps := j1.steps + {Retired});
      RecordJournal(j);
      swarm := SwarmAfterReset(swarm, b);
      Synced();
      if b.reset == Raises {
        return Raised;
      }
      j := j.(steps := j.steps + {SwarmReset});
      RecordJournal(j);
      if b.reset == Incomplete {
        return Raised;
      }
      var chosen := ChooseDevice(j, b);
      if chosen.None? {
        return Raised;
      }
      outcome := NameAndDetach(chosen.value, reason, prior, j, b);
    }

    method NameAndDetach(device: nat, reason: Reason, prior: Prior, j3: Journal, b: Boot) returns (outcome: Outcome)
      requires !networking
      modifies this
      ensures Exec(Now(), outcome) == IdentityModel.NameAndDetach(old(Now()), device, reason, prior, j3, b)
      ensures networking == outcome.Ready?
    {
      var j := j3.(newDevice := Some(Id(device)));
      RecordJournal(j);
      node := NodeAfter(node, b.tailnet);
      Synced();
      var status := b.tailnet;
      if status == Error {
        if !b.holds {
          return Raised;
        }
        status := Held;
      }
      j := j.(steps := j.steps + {TailnetCleared}, tailnet := Some(status));
      RecordJournal(j);
      outcome := IssueAndBind(device, reason, prior, j, b);
    }

    method IssueAndBind(device: nat, reason: Reason, prior: Prior, j: Journal, b: Boot) returns (outcome: Outcome)
      requires !networking
      modifies this
      ensures Exec(Now(), outcome) == IdentityModel.IssueAndBind(old(Now()), device, reason, prior, j, b)
      ensures networking == outcome.Ready?
    {
      var pair := PairStatus(OnDisk(), b.expired);
      if !pair.valid || (reason != Initial && pair.fingerprint == j.previousFingerprint) {
        if b.freshCertificate.None? {
          return Raised;
        }
        GenerateCertificate(b.freshCertificate.value);
        pair := PairStatus(OnDisk(), b.expired);
      }
      if !pair.valid || (reason != Initial && pair.fingerprint == j.previousFingerprint) {
        return Raised;
      }
      var j6 := j.(steps := j.steps + {CertificateIssued});
      RecordJournal(j6);
      CommitBinding(device, reason, prior, j6, pair.fingerprint.n, b);
      networking := true;
      outcome := Ready(device);
    }

    /** The binding first, then the journal goes, then the marker. */
    method CommitBinding(device: nat, reason: Reason, prior: Prior, j: Journal, fingerprint: nat, b: Boot)
      modifies this`binding, this`journal, this`recovery, this`trace
      ensures Now() == IdentityModel.CommitBinding(old(Now()), device, reason, prior, j, fingerprint, b)
    {
      SaveBinding(NewBinding(device, b.reading.evidence, fingerprint, b.freshInstallation,
                             RetiredAfter(prior.retired, reason, device, j), j.tailnet == Some(Held)));
      journal := Absent;
      Synced();
      recovery := Absent;
      Synced();
    }

    method EnterRecovery(reason: RecoveryReason, b: Boot) returns (outcome: Outcome)
      modifies this`recovery, this`trace, this`networking
      ensures Exec(Now(), outcome) == IdentityModel.EnterRecovery(old(Now()), reason, b)
      ensures !networking && outcome == RecoveryRequired(reason)
    {
      var held := b.holds || (recovery.Object? && recovery.value.tailnetHeld);
      recovery := Object(Marker(reason, held));
      Synced();
      networking := false;
      outcome := RecoveryRequired(reason);
    }

    method ReleaseAfterRecovery()
      modifies this`recovery, this`trace
      ensures Now() == IdentityModel.ReleaseAfterRecovery(old(Now()))
    {
      if !recovery.Absent? {
        recovery := Absent;
        Synced();
      }
    }

    /** Reconciles binding, certificate and device id; saves only when something differs. */
    method Verified(bound: Binding, b: Boot) returns (outcome: Outcome)
      requires !networking
      modifies this
      ensures Exec(Now(), outcome) == IdentityModel.Verified(old(Now()), bound, b)
      ensures networking == outcome.Ready?
    {
      var own, changed := bound, false;
      var pair := PairStatus(OnDisk(), b.expired);
      if pair.valid && pair.fingerprint != Id(own.fingerprint) {
        outcome := EnterRecovery(CertificateMismatch, b);
        return;
      }
      if !pair.valid {
        if b.freshCertificate.None? {
          return Raised;
        }
        GenerateCertificate(b.freshCertificate.value);
        if !PairStatus(OnDisk(), b.expired).valid {
          return Raised;
        }
        own, changed := own.(fingerprint := b.freshCertificate.value), true;
      }
      var device := b.settingsDevice;
      if own.device != b.settingsDevice {
        if b.pinned && Id(b.settingsDevice) !in own.retired {
          own := own.(device := b.settingsDevice);
        } else {
          device := own.device;
          if b.deviceWritable {
            deviceFile := Some(own.device);
            Synced();
          }
        }
        changed := true;
      }
      outcome := FinishVerified(own, device, changed, b);
    }

    method FinishVerified(bound: Binding, device: nat, changed: bool, b: Boot) returns (outcome: Outcome)
      requires !networking
      modifies this
      ensures Exec(Now(), outcome) == VerifiedTailnet(old(Now()), bound, device, changed, b)
      ensures networking == outcome.Ready?
    {
      var own, dirty := bound, changed;
      if own.tailnetResetPending {
        node := NodeAfter(node, b.tailnet);
        Synced();
        if b.tailnet in {Reset, NotInstalled} {
          own, dirty := own.(tailnetResetPending := false), true;
        } else if b.tailnet == Error {
          outcome := EnterRecovery(TailnetResetFailed, b);
          return;
        }
      }
      if dirty {
        SaveBinding(own);
      }
      networking := true;
      outcome := Ready(device);
    }

    method RebindAuthorized(bound: Binding, b: Boot) returns (outcome: Outcome)
      requires !networking
      modifies this
      ensures Exec(Now(), outcome) == IdentityModel.RebindAuthorized(old(Now()), bound, b)
      ensures networking == outcome.Ready?
    {
      var pair := PairStatus(OnDisk(), b.expired);
      if !pair.valid {
        outcome := EnterRecovery(CertificateInvalid, b);
      } else if pair.fingerprint != Id(bound.fingerprint) {
        outcome := EnterRecovery(CertificateMismatch, b);
      } else {
        var own := bound.(hardware := Some(b.reading.evidence));
        SaveBinding(own);
        authorization := None;
        Synced();
        ReleaseAfterRecovery();
        outcome := Verified(own, b);
      }
    }

    method MigrateExisting(b: Boot) returns (outcome: Outcome)
      requires !networking
      modifies this
      ensures Exec(Now(), outcome) == IdentityModel.MigrateExisting(old(Now()), b)
      ensures networking == outcome.Ready?
    {
      var pair := PairStatus(OnDisk(), b.expired);
      if !pair.valid {
        if b.freshCertificate.None? {
          return Raised;
        }
        GenerateCertificate(b.freshCertificate.value);
        pair := PairStatus(OnDisk(), b.expired);
        if !pair.valid {
          return Raised;
        }
      }
      SaveBinding(NewBinding(b.settingsDevice, b.reading.evidence, pair.fingerprint.n, b.freshInstallation, [], false));
      networking := true;
      outcome := Ready(b.settingsDevice);
    }

    method ResumeJournal(j: Journal, loaded: Loaded, b: Boot, administrator: bool) returns (outcome: Outcome)
      requires !networking
      modifies this
      ensures Exec(Now(), outcome) == IdentityModel.ResumeJournal(old(Now()), j, loaded, b, administrator)
      ensures networking == outcome.Ready?
    {
      var verdict := CompareHardware(j.hardware, b.reading);
      if verdict == Same {
        outcome := Provision(b.settingsDevice, j.reason, PriorOf(loaded), Some(j), b);
      } else if verdict == Different || (j.hardware.Some? && j.hardware.value.components == map[]) || administrator {
        outcome := Provision(b.settingsDevice, Clone, PriorForRestart(OnDisk(), j, loaded, b), None, b);
      } else {
        outcome := EnterRecovery(JournalHardwareUnverified, b);
      }
    }

    method WithoutJournal(b: Boot) returns (outcome: Outcome)
      requires !networking
      modifies this
      ensures Exec(Now(), outcome) == IdentityModel.WithoutJournal(old(Now()), b)
      ensures networking == outcome.Ready?
    {
      match LoadBinding(binding) {
        case NoBinding => outcome := EnterRecovery(JournalUnreadable, b);
        case Problem(reason) => outcome := EnterRecovery(reason, b);
        case Bound(bound) =>
          var verdict := CompareHardware(bound.hardware, b.reading);
          var pair := PairStatus(OnDisk(), b.expired);
          if verdict == Different {
            outcome := Provision(b.settingsDevice, Clone, PriorOf(Bound(bound)), None, b);
          } else if verdict == Same && pair.valid && pair.fingerprint == Id(bound.fingerprint) && b.settingsDevice == bound.device {
            outcome := Verified(bound, b);
            if outcome.Ready? {
              journal := Absent;
              Synced();
            }
          } else {
            outcome := EnterRecovery(JournalUnreadable, b);
          }
      }
    }

    method DecideByBinding(b: Boot) returns (outcome: Outcome)
      requires !networking
      modifies this
      ensures Exec(Now(), outcome) == IdentityModel.DecideByBinding(old(Now()), b)
      ensures networking == outcome.Ready?
    {
      match LoadBinding(binding) {
        case NoBinding =>
          if PairStatus(OnDisk(), b.expired).present {
            outcome := MigrateExisting(b);
          } else {
            outcome := Provision(b.settingsDevice, Initial, NOTHING_PRIOR, None, b);
          }
        case Problem(reason) =>
          outcome := EnterRecovery(reason, b);
        case Bound(bound) =>
          var verdict := CompareHardware(bound.hardware, b.reading);
          if bound.hardware.None? || bound.hardware.value.components == map[] {
            if verdict == Baseline {
              var own := bound.(hardware := Some(b.reading.evidence));
              SaveBinding(own);
              outcome := Verified(own, b);
            } else {
              outcome := Verified(bound, b);
            }
          } else if verdict == Same {
            ReleaseAfterRecovery();
            outcome := Verified(bound, b);
          } else if verdict == Different {
            if b.reading.Usable() && Authorized(OnDisk(), b.now) {
              outcome := RebindAuthorized(bound, b);
            } else {
              outcome := Provision(b.settingsDevice, Clone, PriorOf(Bound(bound)), None, b);
            }
          } else {
            outcome := EnterRecovery(if verdict == Insufficient then InsufficientEvidence else ContradictoryEvidence, b);
          }
      }
    }

    /** The identity check at the start of every boot. */
    method EnsureIdentity(b: Boot) returns (outcome: Outcome)
      modifies this
      ensures Exec(Now(), outcome) == EnsureLocked(old(Now()), b)
      ensures networking == outcome.Ready?
    {
      networking := false;
      if journal.Absent? {
        outcome := DecideByBinding(b);
      } else {
        var trusted := TrustedJournal(OnDisk());
        if trusted.None? {
          outcome := WithoutJournal(b);
        } else {
          outcome := ResumeJournal(trusted.value, LoadBinding(binding), b, false);
        }
      }
    }

    /** The administrator asks for a new identity. */
    method ReplaceByAdministrator(b: Boot) returns (outcome: Outcome)
      modifies this
      ensures Exec(Now(), outcome) == ResolveNew(old(Now()), b)
      ensures networking == outcome.Ready?
    {
      networking := false;
      var trusted := TrustedJournal(OnDisk());
      if trusted.Some? {
        outcome := ResumeJournal(trusted.value, LoadBinding(binding), b, true);
      } else {
        outcome := Provision(b.settingsDevice, OperatorNewIdentity, PriorOf(LoadBinding(binding)), None, b);
      }
    }

    /** The administrator decides to keep this identity on this hardware. */
    method KeepByAdministrator(b: Boot) returns (outcome: Outcome)
      modifies this
      ensures Exec(Now(), outcome) == ResolveKeep(old(Now()), b)
      ensures if outcome.Refused? then networking == old(networking) else networking
    {
      var pair := PairStatus(OnDisk(), b.expired);
      if !recovery.Object? || recovery.value.reason in {ProvisioningFailed, JournalHardwareUnverified}
         || TrustedJournal(OnDisk()).Some? || !pair.valid {
        return Refused;
      }
      var kept: Binding;
      match LoadBinding(binding) {
        case Bound(bound) =>
          kept := bound.(hardware := if b.reading.Usable() then Some(b.reading.evidence) else bound.hardware,
                         fingerprint := pair.fingerprint.n);
        case _ =>
          kept := NewBinding(b.settingsDevice, b.reading.evidence, pair.fingerprint.n, b.freshInstallation, [], false);
      }
      SaveBinding(kept);
      ReleaseAfterRecovery();
      networking := true;
      outcome := Ready(kept.device);
    }
  }

  /** A running boot on a copied disk: the clone theorem, read off the store itself. */
  method BootACopy(store: Store, ghost src: Safety.Source, ghost truth: Identifiers, b: Boot) returns (outcome: Outcome)
    requires Safety.CloneSafe(src, truth, store.OnDisk()) && Safety.Admissible(src, truth, b)
    requires store.trace == []
    modifies store
    ensures forall i | 0 <= i < |store.trace| :: Safety.CloneSafe(Safety.Nodeless(src), truth, store.trace[i])
    ensures Safety.Clearable(src, old(store.OnDisk()), b) ==>
              forall i | 0 <= i < |store.trace| :: Safety.CloneSafe(src, truth, store.trace[i])
    ensures store.networking ==>
              && Safety.FreeOf(src.certificates, store.OnDisk())
              && store.swarm !! src.swarm
              && outcome.Ready? && src.device != Some(outcome.device)
  {
    ghost var d := store.OnDisk();
    outcome := store.EnsureIdentity(b);
    Safety.SafeButForTheNode(src, truth, d);
    Safety.BootIsSafe(Safety.Nodeless(src), truth, d, b);
    if Safety.Clearable(src, d, b) {
      Safety.BootIsSafe(src, truth, d, b);
    }
  }

  /** A running boot in the middle of a provisioning run: it stays that run, and ends it if the helpers work. */
  method RetryProvisioning(store: Store, ghost course: Runs.Course, b: Boot) returns (outcome: Outcome)
    requires Runs.Follows(course, store.OnDisk()) && Runs.RetryOf(store.OnDisk(), b) && Runs.Reads(course, b)
    requires store.trace == []
    modifies store
    ensures forall i | 0 <= i < |store.trace| :: Runs.Follows(course, store.trace[i])
    ensures Runs.Benign(old(store.OnDisk()), b) ==>
              && outcome.Ready? && store.networking
              && Runs.Landed(course, store.OnDisk()) && store.recovery.Absent?
              && (course.first.newDevice.Some? ==> Id(outcome.device) == course.first.newDevice.value)
  {
    ghost var d := store.OnDisk();
    outcome := store.EnsureIdentity(b);
    Runs.ATryFollows(course, d, b);
    if Runs.Benign(d, b) {
      Runs.ABenignBootEndsTheRun(course, d, b);
    }
  }

  /** A running boot on the machine's own hardware: nothing of the identity is lost on the way. */
  method BootAtHome(store: Store, ghost truth: Identifiers, b: Boot) returns (outcome: Outcome)
    requires Home.Home(truth, store.OnDisk(), b) && store.trace == []
    modifies store
    ensures forall i | 0 <= i < |store.trace| :: Home.Kept(truth, old(store.OnDisk()), b, store.trace[i])
    ensures Home.Kept(truth, old(store.OnDisk()), b, store.OnDisk())
  {
    ghost var d := store.OnDisk();
    outcome := store.EnsureIdentity(b);
    Home.ABootKeepsTheIdentity(truth, d, b);
  }

  /** Nor when the administrator keeps it. */
  method KeepAtHome(store: Store, ghost truth: Identifiers, b: Boot) returns (outcome: Outcome)
    requires Home.Home(truth, store.OnDisk(), b) && store.trace == []
    modifies store
    ensures forall i | 0 <= i < |store.trace| :: Home.Kept(truth, old(store.OnDisk()), b, store.trace[i])
    ensures Home.Kept(truth, old(store.OnDisk()), b, store.OnDisk())
  {
    ghost var d := store.OnDisk();
    outcome := store.KeepByAdministrator(b);
    Home.KeepingKeepsTheIdentity(truth, d, b);
  }

  /** A new identity at the administrator's request leaves no journal that a later boot would not trust. */
  method ReplaceOnRequest(store: Store, b: Boot) returns (outcome: Outcome)
    requires store.trace == []
    modifies store
    ensures forall i | 0 <= i < |store.trace| :: Runs.TrustworthyJournal(old(store.OnDisk()), b, store.trace[i])
  {
    ghost var d := store.OnDisk();
    outcome := store.ReplaceByAdministrator(b);
    Runs.EveryJournalOfADecisionIsValid(d, b);
  }
}
